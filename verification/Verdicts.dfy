/** The outcome of a market is decided by its call history: the first valid `resolve` of the oracle's
    own. Which calls are refused, and who is paid, follows from it. */
module Verdicts {
  import opened Fixed
  import opened Lmsr
  import opened Sums
  import opened MarketState
  import opened MarketSafety
  import Settlement

  predicate Decides(oracle: User, call: Call) {
    call.CallResolve? && call.user == oracle && call.outcome <= NO
  }

  ghost predicate FirstAt(oracle: User, calls: seq<Call>, i: nat)
    requires i < |calls|
  {
    Decides(oracle, calls[i]) && forall j :: 0 <= j < i ==> !Decides(oracle, calls[j])
  }

  // What the oracle's first valid resolution in a history declares.
  function Verdict(oracle: User, calls: seq<Call>): Option<nat> {
    if calls == [] then None
    else if Decides(oracle, calls[0]) then Some(calls[0].outcome)
    else Verdict(oracle, calls[1..])
  }

  lemma {:induction false} VerdictIsFirst(oracle: User, calls: seq<Call>)
    ensures Verdict(oracle, calls).None? <==> forall i :: 0 <= i < |calls| ==> !Decides(oracle, calls[i])
    ensures forall i :: 0 <= i < |calls| && FirstAt(oracle, calls, i) ==>
              Verdict(oracle, calls) == Some(calls[i].outcome)
  {
    if calls != [] {
      var rest := calls[1..];
      VerdictIsFirst(oracle, rest);
      assert forall i :: 0 < i < |calls| ==> calls[i] == rest[i - 1];
      hide Decides;
      forall i | 0 < i < |calls| && FirstAt(oracle, calls, i)
        ensures FirstAt(oracle, rest, i - 1)
      {
        assert forall j :: 0 <= j < i - 1 ==> rest[j] == calls[j + 1];
      }
    }
  }

  lemma DecidingStep(s: State, funding: int, call: Call)
    requires Live(s, funding) && !s.resolved
    ensures s.oracle.Some?
    ensures var t := Step(s, call);
      if Decides(s.oracle.value, call) then t.resolved && t.winner == call.outcome else !t.resolved
  {
    hide Buy, Sell, Potential, CostFits, SumOf, TokensConserved;
    if call.CallBuy? || call.CallSell? {
      TradeStep(s, funding, call);
    }
  }

  // A market is resolved exactly by the oracle's own call, and for the outcome that call names.
  lemma {:induction false} VerdictDecides(s: State, funding: int, calls: seq<Call>)
    requires Live(s, funding) && !s.resolved
    ensures s.oracle.Some?
    ensures var t, verdict := Run(s, calls), Verdict(s.oracle.value, calls);
      (t.resolved <==> verdict.Some?) && (t.resolved ==> t.winner == verdict.value)
    decreases |calls|
  {
    if calls != [] {
      var t := Step(s, calls[0]);
      StepLive(s, funding, calls[0]);
      DecidingStep(s, funding, calls[0]);
      hide Live, Step, Decides;
      if t.resolved {
        RunLive(t, funding, calls[1..]);
      } else {
        VerdictDecides(t, funding, calls[1..]);
      }
    }
  }

  // ---- Who is paid ----

  lemma KeepsTokens(s: State, user: User, call: Call)
    requires s.resolved && call != CallClaim(user)
    ensures At(Step(s, call).Held(s.winner), user) == At(s.Held(s.winner), user)
  {
    hide CalculateBuyCost, CalculateSellReturn, InitialLiquidity, Fee, Reserve, Transfer;
  }

  lemma {:induction false} TokensWait(s: State, funding: int, user: User, calls: seq<Call>)
    requires Live(s, funding) && s.resolved
    requires forall i :: 0 <= i < |calls| ==> calls[i] != CallClaim(user)
    ensures var t := Run(s, calls);
      t.resolved && t.winner == s.winner && At(t.Held(s.winner), user) == At(s.Held(s.winner), user)
    decreases |calls|
  {
    if calls != [] {
      StepLive(s, funding, calls[0]);
      KeepsTokens(s, user, calls[0]);
      hide Live, Step;
      TokensWait(Step(s, calls[0]), funding, user, calls[1..]);
    }
  }

  // When the oracle resolves for an outcome, everyone who holds w > 0 tokens of it can claim
  // ceil(49 w / 50) from then on, whatever else is called before the oracle withdraws; everyone else
  // has nothing to claim.
  lemma ResolutionPays(s: State, funding: int, outcome: nat, calls: seq<Call>, user: User)
    requires Open(s, funding) && outcome <= NO
    requires forall i :: 0 <= i < |calls| ==> !calls[i].CallWithdraw? && calls[i] != CallClaim(user)
    ensures var t := Run(Step(s, CallResolve(s.oracle.value, outcome)), calls);
      var w := At(s.Held(outcome), user);
      && t.resolved && t.winner == outcome
      && (w > 0 ==>
            && Claim(t, user).Ok? && Claim(t, user).value.amount == (49 * w + 49) / 50
            && At(Step(t, CallClaim(user)).Held(outcome), user) == 0)
      && (w <= 0 ==> Claim(t, user) == Err(NothingToClaim))
  {
    hide Run, Potential, CostFits, TokensConserved, Claim;
    var call := CallResolve(s.oracle.value, outcome);
    var r := Step(s, call);
    var w := At(s.Held(outcome), user);
    StepLive(s, funding, call);
    DecidingStep(s, funding, call);
    ResolveSettles(s, funding, outcome);
    assert r.Held(outcome) == s.Held(outcome);
    Settlement.NoWithdrawalYet(r, funding, calls);
    TokensWait(r, funding, user, calls);
    var t := Run(r, calls);
    ClaimOutcome(t, funding, user);
    WinningBalance(t, funding, user);
    PayoutCeiling(w);
  }

  lemma DeployedBy(accounts: map<Address, int>, oracle: User, b: int, funding: int)
    requires 0 <= At(accounts, Contract) && Initialize(Fresh(accounts), oracle, b, funding).Ok?
    ensures var s := Deployed(accounts, oracle, b, funding); Open(s, funding) && s.oracle == Some(oracle)
  {
    hide Transfer, InitialLiquidity, Open;
    DeployOpens(accounts, oracle, b, funding);
  }

  lemma ClaimTooEarly(s: State, user: User)
    requires s.oracle.Some? && !s.resolved
    ensures Claim(s, user) == Err(NotResolved)
  {}

  // The same from deployment on: who can claim depends on the history's verdict alone.
  lemma VerdictPays(
    accounts: map<Address, int>, oracle: User, b: int, funding: int, calls: seq<Call>, user: User)
    requires 0 <= At(accounts, Contract) && Initialize(Fresh(accounts), oracle, b, funding).Ok?
    requires forall i :: 0 <= i < |calls| ==> !calls[i].CallWithdraw?
    ensures var t, verdict := Run(Deployed(accounts, oracle, b, funding), calls), Verdict(oracle, calls);
      if verdict.None? then Claim(t, user) == Err(NotResolved)
      else
        var w := At(t.Held(verdict.value), user);
        if w <= 0 then Claim(t, user) == Err(NothingToClaim)
        else Claim(t, user).Ok? && Claim(t, user).value.amount == (49 * w + 49) / 50
  {
    hide Run, Potential, CostFits, TokensConserved, Claim, Initialize;
    var s := Deployed(accounts, oracle, b, funding);
    DeployedBy(accounts, oracle, b, funding);
    VerdictDecides(s, funding, calls);
    Settlement.NoWithdrawalYet(s, funding, calls);
    var t := Run(s, calls);
    if t.resolved {
      ClaimOutcome(t, funding, user);
      WinningBalance(t, funding, user);
      PayoutCeiling(At(t.Held(t.winner), user));
    } else {
      ClaimTooEarly(t, user);
    }
  }

  // ---- Which calls are refused ----

  // Errors that say a call came at the wrong time, from the wrong account or with bad arguments.
  predicate IsRefusal(e: Error) {
    || e == AlreadyInitialized || e == NotInitialized || e == AlreadyResolved || e == NotResolved
    || e == InvalidOutcome || e == InvalidAmount || e == InvalidLiquidity || e == Unauthorized
  }

  function Invalid(outcome: nat, amount: int): Option<Error> {
    if outcome > NO then Some(InvalidOutcome) else if amount <= 0 then Some(InvalidAmount) else None
  }

  // How a deployed market refuses a call, given the verdict of its history so far.
  function Refusal(oracle: User, verdict: Option<nat>, call: Call): Option<Error> {
    match call
    case CallInitialize(_, _, _) => Some(AlreadyInitialized)
    case CallBuy(_, outcome, amount, _) =>
      if verdict.Some? then Some(AlreadyResolved) else Invalid(outcome, amount)
    case CallSell(_, outcome, amount, _) =>
      if verdict.Some? then Some(AlreadyResolved) else Invalid(outcome, amount)
    case CallResolve(caller, outcome) =>
      if verdict.Some? then Some(AlreadyResolved)
      else if outcome > NO then Some(InvalidOutcome)
      else if caller != oracle then Some(Unauthorized)
      else None
    case CallClaim(_) => if verdict.None? then Some(NotResolved) else None
    case CallWithdraw(caller) =>
      if verdict.None? then Some(NotResolved) else if caller != oracle then Some(Unauthorized) else None
    case Outside(_, _, _) => None
  }

  lemma TradeRefused(s: State, funding: int, call: Call)
    requires Open(s, funding) && (call.CallBuy? || call.CallSell?)
    ensures match Invalid(call.outcome, call.amount)
      case Some(e) => Apply(s, call) == Err(e)
      case None => Apply(s, call).Err? ==> !IsRefusal(Apply(s, call).error)
  {
    hide Potential, CostFits, TokensConserved, TradeCost, TradeFits, CalculateBuyCost, CalculateSellReturn;
    if Invalid(call.outcome, call.amount).None? {
      hide Buy, Sell;
      if call.CallBuy? {
        BuyOutcome(s, funding, call.user, call.outcome, call.amount, call.limit);
      } else {
        SellOutcome(s, funding, call.user, call.outcome, call.amount, call.limit);
      }
    }
  }

  lemma ClosedRefused(s: State, funding: int, call: Call)
    requires Closed(s, funding) && !call.Outside?
    ensures match Refusal(s.oracle.value, Some(s.winner), call)
      case Some(e) => Apply(s, call) == Err(e)
      case None => Apply(s, call).Err? ==>
        Apply(s, call).error == NothingToClaim || Apply(s, call).error == InsufficientPool
  {
    if call.CallClaim? {
      hide Claim;
      ClaimOutcome(s, funding, call.user);
    } else if call.CallWithdraw? && call.user == s.oracle.value {
      hide WithdrawRemaining;
      WithdrawOutcome(s, funding);
    }
  }

  lemma AlreadyDeployed(s: State, call: Call)
    requires s.oracle.Some? && call.CallInitialize?
    ensures Apply(s, call) == Err(AlreadyInitialized)
  {}

  // In every run, a call is refused for its time, caller or arguments exactly as `Refusal` says of
  // the history before it; every other failure has another reason.
  lemma HistoryRefuses(
    accounts: map<Address, int>, oracle: User, b: int, funding: int, calls: seq<Call>, call: Call)
    requires 0 <= At(accounts, Contract) && Initialize(Fresh(accounts), oracle, b, funding).Ok?
    ensures var r := Apply(Run(Deployed(accounts, oracle, b, funding), calls), call);
      match Refusal(oracle, Verdict(oracle, calls), call)
      case Some(e) => r == Err(e)
      case None => r.Err? ==> !IsRefusal(r.error)
  {
    hide Run, Potential, CostFits, TokensConserved, Initialize;
    var s := Deployed(accounts, oracle, b, funding);
    DeployedBy(accounts, oracle, b, funding);
    VerdictDecides(s, funding, calls);
    RunLive(s, funding, calls);
    var t := Run(s, calls);
    if call.CallInitialize? {
      AlreadyDeployed(t, call);
    } else if t.resolved && !call.Outside? {
      ClosedRefused(t, funding, call);
    } else if call.CallBuy? || call.CallSell? {
      TradeRefused(t, funding, call);
    }
  }

  // Before deployment every entry point and query fails.
  lemma NotDeployed(s: State, call: Call, outcome: nat, amount: int)
    requires s.oracle.None? && !call.CallInitialize? && !call.Outside?
    ensures Apply(s, call) == Err(NotInitialized)
    ensures GetPrice(s, outcome) == Err(NotInitialized)
    ensures GetQuote(s, outcome, amount) == Err(NotInitialized)
    ensures GetSellQuote(s, outcome, amount) == Err(NotInitialized)
  {}
}
