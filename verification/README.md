# LMSR prediction market

A model of the binary prediction market contract and of the fixed-point pricing engine under it, with
proofs about every input and every run.

The contract sells YES and NO tokens for collateral at prices set by the logarithmic market scoring
rule, `cost(y, n) = b * ln(e^(y/b) + e^(n/b))`. After the oracle resolves the market, each winning
token redeems for one unit of collateral less a 2% fee, and the oracle withdraws what is not reserved
for claims. All arithmetic is on 128-bit integers scaled by 10^7, with an exponential and a logarithm
computed by truncating series loops.

The central fact is that the pool is a function of the two sold counters (`MarketSafety.Open`). Every
property of the money in the contract (solvency, the oracle's loss bound, path independence, guards
that cannot fire) then becomes a property of that function, and so of the two rounded loops.

## Files

| file | content |
|---|---|
| `Fixed.dfy` | error codes, results, 128-bit checked arithmetic, truncating division |
| `Exponential.dfy`, `Logarithm.dfy` | the two loops as methods, and the plain sums they compute |
| `Taylor.dfy` | exact Taylor polynomials over the reals: the reference for accuracy |
| `ExponentialAccuracy.dfy`, `LogarithmAccuracy.dfy` | how far the loops are from that reference |
| `ExponentialShape.dfy` | where the computed exponential falls and rises |
| `Lmsr.dfy` | the pricing formulas, and their value on the quantities a market can hold |
| `CostLaws.dfy`, `PriceLaws.dfy` | laws of the rounded cost and price |
| `Monotonicity.dfy`, `Regimes.dfy` | where the cost rises with the quantity, and where it falls |
| `Sums.dfy` | sums over balance maps |
| `MarketState.dfy` | storage as a value; every entry point as a transition; runs |
| `MarketSafety.dfy`, `Collateral.dfy` | invariants and safety of all runs |
| `Trading.dfy` | path independence, round trips, complete sets, quotes, price movement |
| `Settlement.dfy` | claims and the oracle's withdrawal |
| `Verdicts.dfy` | how the call history decides the winner, who is paid and which calls are refused |
| `LmsrMarketContract.dfy` | the contract and the token as objects updated in place, proved to be steps of the model |

## Where the code differs from its comments

- `lmsr.rs:16-19` says that 20 terms suffice on [-20, 20]. On [-20, -9] the computed exponential is at
  least 1.49 (`ExponentialAccuracy.ExpTooLarge`), where the true value is below 0.0002. It is within 22
  units on [-1, 1] (`ExpNearTaylor`) and in (0, 1] on [-8.8, 0] (`ExpAtMostOne`); `ExpError` bounds the
  error everywhere.
- A purchase can compute a negative cost, and a sale a negative return; the token then refuses it. Where
  that happens is a matter of how far the ratio (quantity over b) of the outcome bought is ahead of the
  other's; a sale is the same move downwards:
  - at balance, because the logarithm series stays below 0.67676 on [1, 2) while ln 2 is 0.69315: a
    purchase that moves the ratio by up to 1.852% fails, and one that moves it by 1.855% or more goes
    through (`Trading.BalancePurchase`); a sale back to balance fails from the same distances
    (`Trading.BalanceSale`);
  - about 6.2 to 20 behind, because the 20-term exponential grows again there: from 8.84 to 20 behind
    every move of 1% or more up to balance fails (`Trading.PurchaseDecided`, `Trading.FarPurchaseFails`,
    and `Trading.FarTokenFails` for a run that gets there);
  - about 12.6 to 20 ahead and crossing 20, where the exponential is cut to one unit
    (`Trading.PastCapPurchaseFails`, from 12.7, and the run `Trading.PastCapTokensFail`).

  `Regimes.LossExactly` and `Trading.NegativeOnlyIn` show that, beyond rounding, these are the only
  starting points. The strips from 6 to 6.5 behind and from 12.5 to 12.7 ahead, around the exact turning
  points, and moves of less than 1600 units between 8.8 and 20 ahead, are not decided.
- `lib.rs:478-480` says that a withdrawal reserves enough for all unclaimed tokens. The reserve rounds
  down and each payout rounds up, so all holders can be paid afterwards exactly when every winning
  balance is a multiple of 50 (`Settlement.FullySettles`); `StrandedWinner` is a run where one cannot.

## Model

| member | source | states |
|---|---|---|
| Exponential.ExpScaled | contracts/lmsr_market/src/lmsr.rs:25-56 | The loop with checked arithmetic and early exit computes the plain 20-term sum of truncated terms; no operation in it overflows, and it fails exactly above 20.0 |
| Exponential.TermCap | contracts/lmsr_market/src/lmsr.rs:40-45 | On [-20, 20] the n-th term stays below a fixed cap: the reason no multiplication overflows |
| Exponential.EarlyExit | contracts/lmsr_market/src/lmsr.rs:49-52 | Once a term rounds to zero all later ones do, so stopping there loses nothing |
| Exponential.ExpMonotone | contracts/lmsr_market/src/lmsr.rs:36-55 | The computed exponential is nondecreasing on [0, 20] despite truncation and early exit |
| Exponential.ExpUnitInterval | contracts/lmsr_market/src/lmsr.rs:36-55 | On [-1, 0] it lies in (0, 1], and is 1 only at 0 |
| ExponentialAccuracy.ExpNearTaylor | contracts/lmsr_market/src/lmsr.rs:16-56 | For arguments in [-1, 1] it differs by fewer than 22 units from the exact Taylor sum of every degree from 20 on |
| ExponentialAccuracy.ExpError | contracts/lmsr_market/src/lmsr.rs:16-56 | On all of [-20, 20] it differs from every Taylor sum of degree 20 or more by at most the rounding bound at the absolute argument plus the terms left out there |
| ExponentialAccuracy.ExpPositive | contracts/lmsr_market/src/lmsr.rs:25-56 | It is at least one unit at every non-positive argument, at least 0.00325 on [-20, -6.5] and at least 0.00915 on [-20, -7] |
| ExponentialAccuracy.ExpAtMostOne | contracts/lmsr_market/src/lmsr.rs:25-56 | On [-8.8, 0] it lies in (0, 1], and is 1 only at 0 |
| ExponentialAccuracy.ExpTooLarge | contracts/lmsr_market/src/lmsr.rs:16-20 | On [-20, -8.84] it exceeds 1.03, and on [-20, -9] it is at least 1.49, so the accuracy the comment promises on [-20, 20] does not hold |
| ExponentialShape.ExpSlope | contracts/lmsr_market/src/lmsr.rs:25-56 | From 0 down to -8.8 it falls at most as fast as its argument, up to 634 units |
| ExponentialShape.ExpFalls | contracts/lmsr_market/src/lmsr.rs:25-56 | From 0 down to -6 it falls, up to 634 units |
| ExponentialShape.ExpRises | contracts/lmsr_market/src/lmsr.rs:25-56 | From -8.8 down to -20 it rises again over every move of 1600 units, with no slack |
| ExponentialShape.ExpGrows | contracts/lmsr_market/src/lmsr.rs:25-56 | There 1 plus it grows by at least one part in 204 over every 1% |
| Logarithm.ScaleToUnit | contracts/lmsr_market/src/lmsr.rs:77-90 | The two normalisation loops terminate on every positive argument and reach the normal form |
| Logarithm.NormaliseScales | contracts/lmsr_market/src/lmsr.rs:74-93 | The normal form is the argument shifted by a power of two, rounded down once |
| Logarithm.LnScaled | contracts/lmsr_market/src/lmsr.rs:61-128 | The loops compute the plain 30-term alternating sum plus exponent times ln 2; nothing overflows, and it fails exactly on non-positive arguments |
| Logarithm.LnBounds | contracts/lmsr_market/src/lmsr.rs:61-128 | From 1 up the result lies between k ln 2 and k ln 2 + (m - 1), for k halvings and halved value m |
| LogarithmAccuracy.SeriesBelowCap | contracts/lmsr_market/src/lmsr.rs:98-119 | The series stays at or below 0.67676 for every mantissa, short of ln 2 |
| Monotonicity.LnMonotone | contracts/lmsr_market/src/lmsr.rs:61-128 | From 1 up the computed logarithm is monotone up to 60 units, across the power-of-two steps too |
| Monotonicity.LnGains | contracts/lmsr_market/src/lmsr.rs:61-128 | An argument larger by one part in 204 has a strictly larger computed logarithm |
| Lmsr.CostValue | contracts/lmsr_market/src/lmsr.rs:132-171 | On non-negative quantities, exactly when the cost is defined, and then it is the potential; the only errors are InvalidLiquidity for b of zero or less, and Overflow |
| CostLaws.CostAtOrigin | contracts/lmsr_market/src/lmsr.rs:298-307 | The cost of the untraded market equals the required initial liquidity exactly, errors included |
| CostLaws.CostSandwich | contracts/lmsr_market/src/lmsr.rs:132-171 | Every defined cost is at least the larger quantity, without slack. With the two ratios up to 8.8 or more than 20 apart it is at most b ln 2 above it, and from 8.84 to 20 apart it is more than that (for b of at least 134 units; 9 units from a distance of 9); past 20 at most b / SCALE above |
| CostLaws.CostEnvelope | contracts/lmsr_market/src/lmsr.rs:132-171 | The cost is defined for all quantities up to 10^30 and b up to 10^28 |
| CostLaws.CostSymmetric | contracts/lmsr_market/src/lmsr.rs:137-168 | The cost is symmetric in the two quantities, errors included |
| CostLaws.CompleteSet | contracts/lmsr_market/src/lmsr.rs:137-168 | When b divides k * SCALE, adding k of both outcomes adds exactly k to the cost |
| CostLaws.PotentialDips | contracts/lmsr_market/src/lmsr.rs:98-127 | At equal ratios, buying between 1e-7 b and 1.6% of b lowers the cost, by at least 3871 units per b |
| Monotonicity.MonotoneOffBalance | contracts/lmsr_market/src/lmsr.rs:132-171 | With the ratios within 1 of each other, neither starting nor ending equal, buying costs between 0 and face value, up to 207 units of rounding per b |
| Regimes.BalanceDip | contracts/lmsr_market/src/lmsr.rs:98-171 | From equal ratios, a purchase that moves the ratio by up to 1.852% lowers ln(1 + e^x) as computed, and one that moves it by 1.855% or more raises it |
| Regimes.LossRegimes | contracts/lmsr_market/src/lmsr.rs:25-171 | The computed ln(1 + e^x) falls by more than 1600 units only in four regimes of the signed distance: from 0 by less than 1.855%, from -20 to -6, from more than 12.5 across 20, or in a move of less than 1600 units between 8.8 and 20 |
| Regimes.LossExactly | contracts/lmsr_market/src/lmsr.rs:25-171 | Outside the strips (-6.5, -6) and (12.5, 12.7), a fall by more than 1600 units over a move of at least 1600 exists from a distance if and only if it is 0, in [-20, -6.5] or in [12.7, 20] |
| Regimes.FallsLoses | contracts/lmsr_market/src/lmsr.rs:25-171 | The moves for which it falls, with no slack: from 0 by up to 1.852%; from [-20, -8.84] by 1% or more to anywhere up to 0; from [-8.84, -6.5] by 0.34 or more, to at most -6.5; from [-20, -7] to [-6, -5]; from [12.7, 20] by up to 7.33 across 20 |
| Regimes.HoldsKeeps | contracts/lmsr_market/src/lmsr.rs:25-171 | Moves for which it does not fall at all: below -20; from [-6, -0.00014] to 0 or to 0.00007 or more; from 0 by 1.855% or more; from 1 or more by 0.00024 or more up to 20; from up to 12.5 across 20; beyond 20 |
| Regimes.DipOnlyAtBalance | contracts/lmsr_market/src/lmsr.rs:132-205 | For purchases between 1e-7 b and 1.6% of b that start from at most 6 behind to 8.8 ahead, with b of at least one token, the computed cost is negative beyond rounding if and only if they start at equal ratios |
| PriceLaws.PriceValue | contracts/lmsr_market/src/lmsr.rs:253-296 | On non-negative quantities, exactly when a price is defined, that it is the outcome's share of the two weights, and which error it is otherwise |
| PriceLaws.PricesSumToOne | contracts/lmsr_market/src/lmsr.rs:253-296 | Prices lie in [0, 1] and the two sum to 1 or one unit less |
| PriceLaws.PriceFollowsQuantity | contracts/lmsr_market/src/lmsr.rs:253-296 | A larger quantity never lowers its own price or raises the other's |
| PriceLaws.PriceSymmetric | contracts/lmsr_market/src/lmsr.rs:283-295 | Swapping the quantities swaps the two prices, errors included |
| LmsrMarketContract.Token.Transfer | contracts/lmsr_market/src/lib.rs:186-187 | A transfer moves the amount or aborts without effect on a negative amount or an overdraft |
| LmsrMarketContract.LmsrMarket.Deploy | contracts/lmsr_market/src/lib.rs:31-48 | Deployment yields an initialised contract, valid and as the model says, or aborts and leaves the token untouched |
| LmsrMarketContract.LmsrMarket.Initialize | contracts/lmsr_market/src/lib.rs:60-119 | The writes of `initialize` with the host's rollback are one step of the model, and a success opens a valid market |
| LmsrMarketContract.LmsrMarket.Buy | contracts/lmsr_market/src/lib.rs:133-220 | The writes of `buy` in source order with the host's rollback are one step of the model, and keep a valid market valid |
| LmsrMarketContract.LmsrMarket.Sell | contracts/lmsr_market/src/lib.rs:232-331 | The same for `sell`, whose counter is written before the pool guard |
| LmsrMarketContract.LmsrMarket.Resolve | contracts/lmsr_market/src/lib.rs:338-383 | The same for `resolve` |
| LmsrMarketContract.LmsrMarket.Claim | contracts/lmsr_market/src/lib.rs:395-474 | The same for `claim`, whose balance and unclaimed counter are written before the pool guard |
| LmsrMarketContract.LmsrMarket.WithdrawRemaining | contracts/lmsr_market/src/lib.rs:487-547 | The same for `withdraw_remaining` |
| LmsrMarketContract.LmsrMarket.GetPrice | contracts/lmsr_market/src/lib.rs:553-573 | The query returns the model's price or its error and changes nothing; in a valid market the price lies in [0, 1], before and after resolution |
| LmsrMarketContract.LmsrMarket.GetQuote | contracts/lmsr_market/src/lib.rs:579-618 | The query returns the model's purchase quote or its error and changes nothing; in a valid market the quoted price lies in [0, 1] |
| LmsrMarketContract.LmsrMarket.GetSellQuote | contracts/lmsr_market/src/lib.rs:624-667 | The query returns the model's sale quote or its error and changes nothing; in a valid market the quoted price lies in [0, 1] |
| LmsrMarketContract.StepSound | contracts/lmsr_market/src/lib.rs:60-547 | Any call, `initialize` and transfers by others included, leaves the contract either undeployed and empty or deployed and in one of the three phases |
| MarketSafety.BuyCostValue | contracts/lmsr_market/src/lmsr.rs:175-205 | On non-negative quantities, exactly which purchases have a cost, that it is the difference of two potentials, and which error comes first otherwise |
| MarketSafety.SellReturnValue | contracts/lmsr_market/src/lmsr.rs:209-249 | The same for sales; InsufficientBalance exactly when the amount exceeds the quantity |
| MarketSafety.BuyOutcome | contracts/lmsr_market/src/lib.rs:133-220 | In an open market, exactly when a purchase succeeds, which error it reports otherwise, and the whole new state; the plain additions never trap |
| MarketSafety.SellOutcome | contracts/lmsr_market/src/lib.rs:232-331 | The same for a sale, with InsufficientBalance exactly for a seller who holds less than the amount; InsufficientPool, and InsufficientBalance from the pricing engine, never occur |
| MarketSafety.ClaimOutcome | contracts/lmsr_market/src/lib.rs:395-474 | After resolution, exactly when a claim succeeds and the whole new state; the fee arithmetic never overflows |
| MarketSafety.WithdrawOutcome | contracts/lmsr_market/src/lib.rs:487-547 | Exactly when the oracle's withdrawal succeeds and the whole new state; the reserve arithmetic never overflows |
| MarketSafety.InitializeOutcome | contracts/lmsr_market/src/lib.rs:60-119 | A deployment succeeds exactly when b is positive, b times LN2_SCALED fits, and the funding is at least b ln 2, at most half the integer range and owned by the oracle; which error it reports otherwise, and the whole new state |
| MarketSafety.SeventyPercentSuffices | internal/service/factory.go:465-469 | Funding of 70% of b, the rule of the deploying service, always meets the contract's own requirement, so a deployment within the range and the oracle's funds succeeds |
| MarketSafety.DeployOpens | contracts/lmsr_market/src/lib.rs:60-119 | Every successful deployment is an open market whose pool is the potential at zero plus the surplus funding |
| MarketSafety.TradeKeepsOpen | contracts/lmsr_market/src/lib.rs:189-214 | A trade keeps the pool equal to the potential and each counter equal to the sum of its balances |
| MarketSafety.ResolveSettles | contracts/lmsr_market/src/lib.rs:356-377 | Resolution finds the pool covering every winning token in full |
| MarketSafety.ClaimKeepsClosed | contracts/lmsr_market/src/lib.rs:428-456 | A claim keeps the unclaimed counter equal to the sum of winning balances, and the pool above it before a withdrawal or below 98% of it after |
| MarketSafety.RunLive | contracts/lmsr_market/src/lib.rs:133-547 | Every run keeps the market in a phase; oracle and b never change, resolution freezes winner and counters, and a withdrawn market stays withdrawn |
| MarketSafety.Solvency | contracts/lmsr_market/src/lib.rs:60-331 | In every reachable trading state the pool is funding - b ln 2 + cost(y, n), covers the larger counter without slack and is held by the contract; each counter is the sum of its balances |
| MarketSafety.SettlementSafety | contracts/lmsr_market/src/lib.rs:338-547 | In every reachable resolved state the unclaimed counter is the sum of winning balances; the pool covers all of them plus the surplus, or is at most 98% of them after the withdrawal |
| MarketSafety.SalesCovered | contracts/lmsr_market/src/lib.rs:232-331 | In every reachable state no sale, by any user of any outcome, amount and limit, fails with InsufficientPool |
| MarketSafety.BoundedMakerLoss | contracts/lmsr_market/src/lib.rs:338-547 | In every run and order of claims a successful withdrawal pays at least the funding less b ln 2 |
| MarketSafety.WithdrawOnce | contracts/lmsr_market/src/lib.rs:487-547 | After one successful withdrawal every later one fails with NothingToClaim, whatever is called in between |
| Collateral.CallPays | contracts/lmsr_market/src/lib.rs:60-547 | A successful call makes exactly one transfer (none for `resolve`), of the amount returned, and the pool moves with the contract's account |
| Collateral.CollateralConserved | contracts/lmsr_market/src/lib.rs:60-547 | Every run preserves the total of all token accounts |
| Collateral.PoolIsCustody | contracts/lmsr_market/src/lib.rs:97-541 | Without outside transfers the contract's token balance and its pool differ by a constant over every run |
| Trading.PathIndependence | contracts/lmsr_market/src/lib.rs:133-331 | Two sequences of one trader's trades from the same state to the same quantities leave identical storage and token accounts |
| Trading.PoolIndependence | contracts/lmsr_market/src/lib.rs:133-331 | Whoever trades and whatever else is called, equal quantities mean an equal pool |
| Trading.SetsCostFaceValue | contracts/lmsr_market/src/lib.rs:133-331 | When b divides k * SCALE, any run that adds k of both outcomes adds exactly k to the pool |
| Trading.RoundTrip | contracts/lmsr_market/src/lib.rs:133-331 | What was just bought can be sold at once for exactly what it cost, and that restores storage and token accounts |
| Trading.SplitPurchase | contracts/lmsr_market/src/lib.rs:133-220 | Two successful purchases equal one purchase of the sum, in price, storage and token accounts |
| Trading.PriceAnswer | contracts/lmsr_market/src/lib.rs:553-573 | In every live market, resolved or not, a price is given exactly when the scaled quantities fit and both ratios are within 20, and it is the outcome's share of the weights |
| Trading.QuoteValue | contracts/lmsr_market/src/lib.rs:579-618 | In every live market, exactly when a purchase is quoted, the quote being its cost and the share of the weights after it, and which error it is otherwise; purchases the token would refuse are quoted too |
| Trading.SellQuoteValue | contracts/lmsr_market/src/lib.rs:624-667 | The same for a sale, quoted up to all tokens ever sold, with InsufficientBalance exactly beyond that |
| Trading.QuoteGiven | contracts/lmsr_market/src/lib.rs:579-667 | With b up to 10^28, a valid purchase or sale is quoted if and only if it leaves both ratios within 20 |
| Trading.QuoteHonoured | contracts/lmsr_market/src/lib.rs:579-618 | A purchase right after a quote moves the quoted collateral and lands on the quoted price |
| Trading.SellQuoteHonoured | contracts/lmsr_market/src/lib.rs:624-667 | The same for a sale |
| Trading.QuoteExecutable | contracts/lmsr_market/src/lib.rs:133-220 | A quoted purchase succeeds exactly when the quote is within the limit, not negative and affordable |
| Trading.QuoteBounds | contracts/lmsr_market/src/lib.rs:579-618 | Within 6 of balance, neither starting nor ending on it, a quote lies between 0 and the face value up to 1389 units of rounding per b, and up to 207 within 1 |
| Trading.TradeMovesPrice | contracts/lmsr_market/src/lib.rs:133-331 | Buying never lowers the price of what is bought or raises the other's; selling the reverse |
| Trading.NegativeOnlyIn | contracts/lmsr_market/src/lib.rs:133-331 | In an open market, a purchase whose computed cost, or a sale whose computed return, is negative by more than 1600 units per b moves between distances of LossRegimes, upwards or downwards |
| Trading.PurchaseDecided | contracts/lmsr_market/src/lib.rs:133-220 | With b of at least one token, a purchase within the limit and the buyer's funds traps on every move of FallsLoses and succeeds on every move of HoldsKeeps |
| Trading.SaleDecided | contracts/lmsr_market/src/lib.rs:232-331 | The same for a sale of tokens one holds, whose move is read downwards |
| Trading.SmallPurchaseFails | contracts/lmsr_market/src/lib.rs:174-187 | At equal ratios, with b of at least 2584 units, a purchase of between 1e-7 b and 1.6% of b always fails, by a trap whenever the limit is not negative and the cost is defined |
| Trading.BalancePurchase | contracts/lmsr_market/src/lib.rs:174-187 | At equal ratios, with b of at least one token, a purchase within the limit and the buyer's funds fails, by a trap, exactly when it moves the ratio by one unit to 1.852%; between 1.852% and 1.855% it is open |
| Trading.BalanceSale | contracts/lmsr_market/src/lib.rs:232-331 | Selling back to equal ratios, within the seller's limit and with b of at least one token, fails, by a trap, exactly from one unit to 1.852% ahead; between 1.852% and 1.855% it is open |
| Trading.BalanceCost | contracts/lmsr_market/src/lib.rs:174-187 | At equal ratios, funds and a limit of the amount plus b / SCALE + 1 suffice for a purchase up to 8.8 ahead |
| Trading.FarPurchaseFails | contracts/lmsr_market/src/lib.rs:174-187 | With b of at least 134 units, every purchase of the outcome that is 8.84 to 20 behind that ends between 8.8 behind and level fails, and its computed cost is below zero by at least 75000 units per b |
| Trading.PastCapPurchaseFails | contracts/lmsr_market/src/lib.rs:174-187 | With b of at least 88 units, every purchase of the outcome that is 12.7 to 20 ahead that crosses 20 in a move of at most 7.33 fails, its computed cost below zero by at least 114000 units per b; from 13 ahead, with b of at least 9 units, every one of at most 7.5, by at least 1246000 units per b |
| Trading.FirstTokenFails | contracts/lmsr_market/src/lib.rs:174-187 | A concrete case: one YES token of a new market with b of 100 tokens cannot be bought |
| Trading.FarTokenFails | contracts/lmsr_market/src/lib.rs:60-220 | A concrete run: with b of 100 tokens, after a purchase of 890 YES tokens NO is 8.9 behind, and one NO token cannot be bought |
| Trading.PastCapTokensFail | contracts/lmsr_market/src/lib.rs:60-220 | A concrete run: after a purchase of 1400 YES tokens YES is 14 ahead, and 650 more, which cross 20, cannot be bought |
| Trading.LargePurchaseSucceeds | contracts/lmsr_market/src/lib.rs:133-220 | Within 8b of balance, a purchase that takes its outcome b ln 2 past the larger quantity costs between 0 and the rise of the maximum plus b ln 2, and succeeds for a buyer who can pay that |
| Trading.LongPurchaseSucceeds | contracts/lmsr_market/src/lib.rs:133-220 | The same with no bound on where it ends, for a buyer who can pay 82 ln 2 + 1 times b above the rise of the maximum |
| Trading.HundredTokensSucceed | contracts/lmsr_market/src/lib.rs:60-220 | A concrete run: a market with b of 100 tokens and 70 tokens of funding deploys and sells 100 YES tokens |
| Settlement.PayoutTotals | contracts/lmsr_market/src/lib.rs:418-426 | 50 times all payouts is 49 times the tokens plus the sum of balances modulo 50, which is 0 exactly when all are multiples of 50 |
| Settlement.ClaimsBeforeWithdrawal | contracts/lmsr_market/src/lib.rs:395-474 | In every run without a withdrawal each holder's claim succeeds, pays ceil(49 w / 50) and empties the balance |
| Settlement.PaidOnce | contracts/lmsr_market/src/lib.rs:406-412 | A holder whose balance is empty after resolution can never claim again |
| Settlement.WithdrawalShortfall | contracts/lmsr_market/src/lib.rs:509-532 | A withdrawal leaves the pool short of the remaining payouts by exactly ceil(R / 50), R the sum of balances modulo 50: at most one unit per holder, and 0 exactly when all are multiples of 50 |
| Settlement.ShortfallStays | contracts/lmsr_market/src/lib.rs:395-547 | No later call changes that shortfall |
| Settlement.PaidInFull | contracts/lmsr_market/src/lib.rs:395-474 | Without a shortfall every remaining claim succeeds in full, in any order, and the pool ends at exactly 0 |
| Settlement.EveryoneCanClaim | contracts/lmsr_market/src/lib.rs:395-474 | Without a shortfall there is a sequence of claims that pays everyone |
| Settlement.SomeoneUnpaid | contracts/lmsr_market/src/lib.rs:442-456 | With a shortfall someone is left unpaid in every later state |
| Settlement.FullySettles | contracts/lmsr_market/src/lib.rs:476-547 | After a withdrawal all holders can be paid if and only if every winning balance is a multiple of 50 |
| Settlement.SoleHolder | contracts/lmsr_market/src/lib.rs:449-456 | A single remaining holder can claim after the withdrawal if and only if the balance is a multiple of 50; otherwise InsufficientPool |
| Settlement.StrandedWinner | contracts/lmsr_market/src/lib.rs:476-547 | A concrete run from deployment that ends with a winner whose claim fails: one buyer of one unit more than 100 tokens, resolution, withdrawal, claim |
| Verdicts.VerdictIsFirst | contracts/lmsr_market/src/lib.rs:338-383 | The verdict of a history is what the first valid resolution by the oracle declares, and there is none exactly if no such call is in it |
| Verdicts.VerdictDecides | contracts/lmsr_market/src/lib.rs:338-383 | In every run a market is resolved if and only if its history has a verdict, and then the winner is that verdict: only the oracle resolves, once, for the outcome it names |
| Verdicts.ResolutionPays | contracts/lmsr_market/src/lib.rs:338-474 | After the oracle resolves for an outcome, a holder of w > 0 tokens of it can claim ceil(49 w / 50) at any later point before the withdrawal, whatever else is called; everyone else gets NothingToClaim |
| Verdicts.VerdictPays | contracts/lmsr_market/src/lib.rs:338-474 | In every run from deployment without a withdrawal, the verdict and the balance of its outcome alone decide what a claim gives |
| Verdicts.HistoryRefuses | contracts/lmsr_market/src/lib.rs:133-547 | In every run, the history's verdict decides which calls are refused for their time, caller or arguments, and with which error; every other failure has another reason |
| Verdicts.NotDeployed | contracts/lmsr_market/src/lib.rs:133-667 | Before deployment every entry point and query gives NotInitialized |

## Modelling decisions

- Quantities are unbounded integers; every checked operation of the source tests the 128-bit range and
  gives `Overflow`, and plain `+` and `-` outside it give `Trap`, as `contracts/Cargo.toml:19` turns
  overflow checks on.
- Rust's division truncates toward zero and is written out as `Fixed.TruncDiv`.
- The host rolls back a call that fails. `LmsrMarket` restores a snapshot after its body, which writes
  in the source's order; in `MarketState` a failed step keeps the state.
- The token refuses a negative amount or an overdraft. Other accounts may move collateral between
  themselves, or send it to the contract, at any point of a run (`Outside`).
- Users and the oracle are not the contract's own address.
- Metadata, events and the collateral token's address do not influence any result and are not stored.

## Left out

- `require_auth`: callers are taken to have authorised their calls.
- `StorageCorrupted`: `initialize` writes all mandatory keys in one call, so no reachable storage lacks one.
- Other failures of the token, such as a missing trust line or a receiver's balance overflowing.
- Negative quantities in the pricing formulas: no reachable market holds them.
- Storage expiry of the host's instance storage.
- `get_balance`, `get_state` and the other plain getters: they return one stored value.
- The market factory contract, the Go services, the float calculator and the user interface.
- CostLaws.CostSandwich: the strip from 8.8 to 8.84, where the excess over max crosses b ln 2, is left open, and so is b below 134 units (9 from a distance of 9), where rounding hides the excess.
- Monotonicity.MonotoneOffBalance: covers ratios within 1 of each other, where the slack is 206 units; Regimes covers all distances with a slack of 1600.
- Regimes.LossExactly: the strips (-6.5, -6) and (12.5, 12.7) around the exact turning points are left open.
- Regimes.LossRegimes: moves of less than 1600 units between 8.8 and 20 ahead are listed as a regime, though no losing one is known.
- Trading.BalancePurchase: moves between 1.852% and 1.855% are left open, since rounding decides them one by one; so for BalanceSale.
- Trading.PurchaseDecided: moves that are neither in FallsLoses nor in HoldsKeeps, such as those within rounding of no cost, are not decided; so for SaleDecided.
- Trading.NegativeOnlyIn: costs below zero by at most 1600 units per b are within rounding and may occur elsewhere.
- Trading.LargePurchaseSucceeds: off balance, other purchases are covered by PurchaseDecided, which takes the cost to be within the limit and the funds.
