# Verified model of the BitShares chain core

A Dafny 4.11 model of the parts of the chain library where correctness is hard to see, with proofs of
what they promise. All rules are the newest ones: every hardfork time counts as passed. All properties
are for every input, every run and every reachable state of the model.

| file | models |
|---|---|
| `Common.dfy` | definitions that several components share |
| `Prices.dfy` | amounts times prices, rounded down and up |
| `LimitOrders.dfy`, `Books.dfy` | matching two limit orders; the two sides of a market |
| `DebtToCover.dfy` | `get_max_debt_to_cover`: closed form, binary search, Fibonacci search |
| `Wallets.dfy` | balances, market fees and referral rewards |
| `Positions.dfy`, `Settlement.dfy` | debt positions, margin calls, the settlement fund, collateral bids |
| `BestExecution.dfy` | the trades of a new order, and of margin calls, one at a time |
| `Market.dfy` | the class `Market`: a market-issued asset against its backing asset, from borrowing to revival |
| `ForcedSettlement.dfy` | settlement orders of all assets and the loop that serves them |
| `DeferredFees.dfy` | limit orders of all markets with their creation fees, market fees and rewards |
| `UndoDatabase.dfy` | the stack of diffs against a stack of full snapshots |
| `Forks.dfy`, `ForkRuns.dfy` | common ancestors, fork switches and their rollback; two runs that go wrong |
| `Irreversible.dfy` | the last irreversible block and the undo history above it |
| `Vesting.dfy`, `Budget.dfy`, `WitnessSchedule.dfy` | coin-days vesting, budget and payroll, shuffle and slots |
| `Synopsis.dfy` | the block synopsis handshake of two nodes |

`dafny verify dfyconfig.toml` checks everything.

## How the invariants read

- A market is *valid* when its book is at rest (no opposite orders cross, every order would receive
  something at its own price), every position has debt and collateral, the supply is the sum of all debts
  until a global settlement and backed by the fund after it, all holdings of the asset add up to its supply,
  no callable position waits while the best bid is good enough, and every callable position can pay its
  debt at the squeeze price; forced settlement keeps this too. Every operation of `Market` takes a valid market to a valid market, or changes
  nothing, and keeps the sum of all holdings minus supply of both assets, which is the
  equality `verify_asset_supplies` asks for (`tests/common/database_fixture.cpp`, lines 328 to 409).
- An undo history is *faithful* when each diff leads from the snapshot its session began with to the next.
- A chain database is *sound* in every state it can reach, and *valid* while its head is also the head of its fork
  database.
- An undo stack *covers* the chain when every block above the highest irreversible one can be undone.

## What the proofs found

- Two return paths are dead: the one for strange data in `get_max_debt_to_cover`, and the black swan test
  inside the loop of `check_call_orders`. The forward search and the return of the lower estimate are dead too when
  the target price is exact.
- `get_max_debt_to_cover` may buy back all of the debt although a part of it is enough (`GivesUpEarly`): it does so
  at once when the upper estimate is outside the position and half way from the lower one to the whole position is
  too, and never when the upper estimate fits. Whenever it does, no part is enough or the search gave up half way to
  the whole position (`IsBest`).
- A comment in the settlement loop says that the match after one that could not use up the limit settles
  nothing. That is false: filling a position can leave a small one as the least collateralised. It holds
  exactly when that position owes more than what remains of the limit.
- A linear vesting balance accepts deposits, against its documentation, and its assert on the amount
  withdrawn already then fails. It holds exactly while the balance is at most the initial one.
- A session keeps its own undo state exactly when no more sessions are active than the limit allows.
- A failed fork switch is not always taken back. Every applied block prunes the fork database below the new tip,
  and a block that was pruned cannot be popped. The rollback works exactly when no block was accepted, or each
  block that set a limit saw an irreversible number of at most its own number plus two less the length of the
  branch (`CanRollBackMeans`); `BrokenRun` is a run in which it does not, with no irreversible block at all.
- A longer branch whose common parent was pruned is taken in but not switched to, and stays in the fork database
  above the head (`UnconnectedRun`).
- The undo history covers the blocks above the highest irreversible number the chain ever had; on a chain
  that only grows that is the current one. So a branch that leaves at or above that block can always be popped to.
- A reply to a synopsis is not the promised one exactly when an entry above the head is in the block store, which
  makes the reply empty, or in the fork database above all stored blocks, which makes it fail (`PromisedIff`).
  Neither can happen while chain and fork database are in step; both happen after the two runs above.
- A revived asset is settled again at once exactly when its fund is not above the lower of the squeeze price and
  the best bid, which needs a squeeze ratio above the maintenance ratio.

## Model

| member | source | states |
|---|---|---|
| `Prices.Adjoint` | libraries/protocol/asset.cpp:53-95 | `asset * price` is the floor and `multiply_and_round_up` the ceiling of the exact quotient: each is characterised, in both directions, by one inequality without division |
| `Prices.RoundTrip` | libraries/protocol/asset.cpp:53-95 | charging back, rounded up, only what a rounded-down value is worth never charges more than was offered, buys the same value again, and leaves an amount worth nothing |
| `Prices.RoundTripUp` | libraries/protocol/asset.cpp:53-95 | an amount's rounded-up cost buys at least the amount, and asking for all it buys costs no more |
| `Prices.DustAtWorse` | libraries/protocol/asset.cpp:34-95 | an amount worth nothing at one price is worth nothing at every worse one |
| `LimitOrders.DealIsFair` | libraries/chain/db_market.cpp:564-629 | a match takes no more than either order holds; the larger order trades at the match price or better, the smaller loses less than one unit, and what the smaller keeps is worth nothing at that price |
| `LimitOrders.MatchRemovesSmaller` | libraries/chain/db_market.cpp:564-629 | when the orders cross at the maker's price, the smaller order is always gone after the match, so the result is never 0; the only match without a trade is with a taker that asks for nothing |
| `LimitOrders.TakerGetsItsLimit` | libraries/chain/db_market.cpp:564-629 | a taker matched at any price its limit accepts pays no more than its limit allows, up to one unit when it is the smaller side |
| `Books.InsertPlace` | libraries/chain/include/graphene/chain/market_object.hpp:83-89 | a new order stands behind every order at its price or better and before all others |
| `Books.BehindTheFront` | libraries/chain/db_market.cpp:400-408 | returning early with the new order behind the front of its side leaves a book in which no opposite orders cross and none is dust |
| `Books.NewFront` | libraries/chain/db_market.cpp:400-413 | a new order at the front is the only one that can cross |
| `Books.MatchFrontsKeeps` | libraries/chain/db_market.cpp:564-629 | matching the fronts conserves what both sides hold, removes an order, and keeps the rest of the book at rest |
| `Books.MatchedAtLimit` | libraries/chain/db_market.cpp:564-629 | the taker of each match gets its own limit price or better, and a refund only for what is worth nothing |
| `Books.MatchingDone` | libraries/chain/db_market.cpp:544-551 | once the front order crosses nothing, or is dust and culled, the whole book is at rest |
| `Books.Accumulate` | libraries/chain/db_market.cpp:474-542 | a taker filled in several matches gets its limit price over all of them together |
| `Wallets.FeeBounds` | libraries/chain/db_market.cpp:1189-1278 | the three fee asserts never fail: a market fee is at most the amount, a reward is less than its fee, a referrer's cut is at most the reward |
| `Wallets.FeeIsShare` | libraries/chain/db_market.cpp:1189-1278 | a market fee is the configured share of the amount, rounded down, up to the maximum, a reward the configured share of the fee, and the referrer's cut its share of the reward |
| `Wallets.ReceiveGives` | libraries/chain/db_market.cpp:1177-1278 | the seller gets all but the fee, registrar and referrer their rewards, and nobody else anything |
| `Wallets.ReceiveTotal` | libraries/chain/db_market.cpp:1177-1187 | an amount received is split between seller, accumulated fees and vesting rewards without loss |
| `Wallets.ReceiveUnsharedTotal` | libraries/chain/db_market.cpp:1207-1223 | the same for the form without rewards |
| `Wallets.SumUpdated` | libraries/chain/db_market.cpp:1177-1187 | changing one balance changes the total of all balances by the same amount |
| `DebtToCover.BinarySearch` | libraries/chain/market_object.cpp:185-266 | from a pair that is too small the search terminates, never trips its asserts, and finds a pair that leaves the ratio above target while one step less, counted in the asset with the finer step, does not; it falls back on the whole position only when the mean of a pair that is too small and the whole position does not fit, and finds nothing only when the upper pair it was given is too small |
| `DebtToCover.ForwardSearch` | libraries/chain/market_object.cpp:268-303 | the Fibonacci search terminates because its steps grow, and returns the whole debt or a part that lifts the position above target |
| `DebtToCover.UpperPairIsLarger` | libraries/chain/market_object.cpp:164-180 | the pair from the upper estimate is larger than the stabilised lower one, so the return for strange data is never taken |
| `DebtToCover.UpperEstimateIsGood` | libraries/chain/market_object.cpp:112-172 | with an exact target the closed-form upper estimate always lifts the position above target |
| `DebtToCover.SearchBetween` | libraries/chain/market_object.cpp:123-303 | for a position at or below target the result is positive, at most the debt, and either all of it or leaves less debt, positive collateral and a ratio strictly above target; with a lower estimate that is too small and no forward search, one step less is too small, and all of the debt is taken at once if half way up from the lower estimate does not fit |
| `DebtToCover.MaxDebtToCover` | libraries/chain/market_object.cpp:61-304 | the same for the whole function from any inputs, with 0 for a position above maintenance and all the debt without a target ratio; with an exact target 0 exactly for a position above target, the forward search is never entered, and the answer is the best: good, above the closed form, at most what the upper estimate covers, with one step less too small, and all of the debt only if no part of it is good or the search gave up half way to the whole position |
| `DebtToCover.BelowMaintenance` | libraries/chain/market_object.cpp:88-122 | a position at or below maintenance is at or below every higher target and has a non-negative numerator, so 0 is never returned for it |
| `DebtToCover.Mean` | libraries/chain/market_object.cpp:191-244 | each step of the search moves strictly away from both ends, or the two are neighbours in the finer asset, or half way to the whole position does not fit |
| `DebtToCover.PaymentIsStable` | libraries/chain/market_object.cpp:193-209 | where collateral has the finer step every payment is what the debt it buys costs, and one unit more buys more debt |
| `DebtToCover.AmountIsStable` | libraries/chain/market_object.cpp:210-235 | where debt has the finer step every amount is what its cost buys, and one unit more costs more |
| `DebtToCover.GoodExceeds` | libraries/chain/market_object.cpp:114-157 | with an exact target every amount that lifts the position above target is strictly above the closed form, so the lower estimate never does |
| `DebtToCover.WhyNoPart` | libraries/chain/market_object.cpp:117-139 | when the closed form has no positive denominator, or its lower estimate or the cost of that leaves the position, no part of the debt that the position can pay for lifts it above target |
| `DebtToCover.NumeratorSign` | libraries/chain/market_object.cpp:115-118 | with an exact target the numerator is negative exactly when the position is above target |
| `DebtToCover.GivesUpEarly` | libraries/chain/market_object.cpp:167-187 | an input for which all of the debt is bought back although a part of it lifts the position above target |
| `Positions.CallDealIsFair` | libraries/chain/db_market.cpp:631-703 | a margin call takes no more collateral than the position holds, even rounded up, and no more than the order sells; what the smaller side keeps is worth nothing |
| `Positions.CallMatch` | libraries/chain/db_market.cpp:631-703 | a limit order matched with a margin call at the squeeze price gets its limit and, if it is the smaller one, is gone; the only return without a trade is with an order that asks for nothing |
| `Positions.FillCallSums` | libraries/chain/db_market.cpp:867-928 | a fill takes the same debt out of the positions as out of the supply, and collateral goes to the other side or, once the debt is gone, back to the borrower |
| `Positions.FillKeepsCalm` | libraries/chain/db_market.cpp:867-928 | filling a margin call keeps every callable position able to pay all its debt at the squeeze price |
| `Positions.ToBuy` | libraries/chain/db_market.cpp:653-656 | the size of a margin call: all of the debt without a target ratio, and with one the best amount for the target of at least maintenance; served in full it closes the position or takes it out of margin call territory |
| `Positions.LeastBounds` | libraries/chain/db_market.cpp:1046-1060 | a price the least collateralised position is above, every position is above |
| `Positions.LeastNotCallable` | libraries/chain/db_market.cpp:1055-1059 | when the least collateralised position is not in margin call territory, none is |
| `Positions.LeastExists` | libraries/chain/db_update.cpp:212-221 | open positions always have a least collateralised one |
| `Positions.OnlyImproves` | libraries/chain/db_market.cpp:867-900 | a position that pays no more than a price it is above stays above every price it is above |
| `Positions.ImprovedKeepsMargin` | libraries/chain/db_market.cpp:867-900 | so such a fill keeps callable positions solvent at the squeeze price and makes no margin call |
| `Positions.FillCallIs` | libraries/chain/db_market.cpp:867-928 | a fill changes one position only, which goes with its debt or has that much less of both |
| `BestExecution.NeverImproves` | libraries/chain/db_market.cpp:415-542 | the trades of a new order never get better: each was at the best price there was, ask or margin call |
| `BestExecution.RunIsFair` | libraries/chain/db_market.cpp:473-542 | no margin call is made while a crossing ask is better than the squeeze price, and an ask no better than that is not touched while a position waits for a margin call the order is good enough for |
| `BestExecution.AskGives` | libraries/chain/db_market.cpp:564-629 | who has what after a trade with an ask: each side what the other paid less the market fee, and what was too small to be sold, and nobody else anything |
| `BestExecution.CallGives` | libraries/chain/db_market.cpp:631-703 | who has what after a margin call: the bidder the collateral less the market fee, the borrower of a closed position what is left of it |
| `BestExecution.LowestIs` | libraries/chain/db_update.cpp:222-247 | the price of the black swan test is the squeeze price or the best bid, and no higher than either |
| `Markets.Market.MatchBid` | libraries/chain/db_market.cpp:564-629 | the front orders exchange what their match says, and nothing is lost |
| `Markets.Market.MatchAsk` | libraries/chain/db_market.cpp:564-629 | the same for a new ask |
| `Markets.Market.ExecuteCall` | libraries/chain/db_market.cpp:631-703 | who holds what after a bid meets a margin call; the debt bought back leaves the supply, nothing else is created or lost |
| `Markets.Market.MatchNewAsk` | libraries/chain/db_market.cpp:536-542 | the loop ends with the order gone or crossing nothing, and the order got its limit price over all matches |
| `Markets.Market.MatchNewBid` | libraries/chain/db_market.cpp:474-542 | the passes over the asks, with the floor of the margin call price or without: every trade is with the best counterparty there is |
| `Markets.Market.CallForNewBid` | libraries/chain/db_market.cpp:482-507 | the margin call pass, entered with no better ask, calls the least collateralised position each time and ends with the order gone or no position in margin call territory; every step reduces the debt |
| `Markets.Market.CallOnce` | libraries/chain/db_market.cpp:631-703 | one margin call on the least collateralised position, of the size its target ratio asks for and at the squeeze price, or none and the order is finished; never more collateral than the position holds, and the debt strictly falls unless the order is finished |
| `Markets.Market.RunNewBid` | libraries/chain/db_market.cpp:449-542 | the three passes refine the simple rule to trade with the best counterparty each time, ask or least collateralised callable position; the order ends gone or crossing nothing, and no margin call waits for it |
| `Markets.Market.CullFrontAsk` | libraries/chain/db_market.cpp:317-341 | the deferred check removes the order exactly when it asks for nothing at its own price |
| `Markets.Market.CullFrontBid` | libraries/chain/db_market.cpp:317-341 | the same for a bid |
| `Markets.Market.CancelLimitBid` | libraries/chain/db_market.cpp:279-291 | cancelling any bid refunds it and keeps all invariants, the margin call one included |
| `Markets.Market.CancelLimitAsk` | libraries/chain/db_market.cpp:279-291 | cancelling any ask refunds it and keeps all invariants |
| `Markets.Market.GloballySettle` | libraries/chain/db_market.cpp:55-110 | every position pays its debt at the price, rounded up and at most all its collateral, the rest returns to its borrower; the fund is the sum of the payments, it backs the whole supply if every position covers the price and is short of one unit a position of more, and no position is left |
| `Markets.Market.CheckForBlackSwan` | libraries/chain/db_update.cpp:186-273 | the asset is settled exactly when some position is not above the lowest of the squeeze price and the best bid, at a price every position can pay and no better than the feed; otherwise nothing changes and every position is above that price |
| `Markets.Market.CallFrontBid` | libraries/chain/db_market.cpp:1051-1170 | the guard on the least collateralised position makes every margin call affordable even when rounded up, so the second black swan test in the loop never fires; the call is of the size the target ratio asks for, at the bid's price, and the debt strictly falls |
| `Markets.Market.CheckCallOrders` | libraries/chain/db_market.cpp:971-1172 | the loop is a run of margin calls on the least collateralised position against the best bid, each of the right size and with no black swan before it; it terminates; afterwards no callable position is left while the best bid is good enough, and every callable position can pay its debt at the squeeze price, or the asset is settled from the last state of the run; nothing changes when no position is callable |
| `Markets.Market.AdjustPosition` | libraries/chain/market_evaluator.cpp:214-300 | borrowing, repaying and moving collateral change debts and supply by the same amount, and the balances of the account only |
| `Markets.Market.UpdatePosition` | libraries/chain/market_evaluator.cpp:214-367 | an update is the adjusted position followed by the margin calls it causes, or is undone completely; a position that was called is gone, one that was not is out of margin call territory or better than before without more debt |
| `Markets.Market.IssuerSettle` | libraries/chain/asset_evaluator.cpp:810-839 | the issuer's settlement succeeds exactly when the least collateralised position can pay, rounded down, and settles every position |
| `Markets.Market.Settle` | libraries/chain/asset_evaluator.cpp:859-905 | redemption from the fund succeeds exactly when it pays something; the fund always covers it and keeps backing the rest of the supply |
| `Markets.Market.PlaceBid` | libraries/chain/market_evaluator.cpp:369-426 | a bid on a settled asset replaces the bidder's earlier one at its place by price, or only cancels it; only the bidder's balance changes and collateral is conserved |
| `Markets.Market.CancelBid` | libraries/chain/db_market.cpp:161-174 | a cancelled bid returns its collateral to its bidder |
| `Markets.Market.CancelBidsAndRevive` | libraries/chain/db_market.cpp:136-159 | revival returns the collateral of every bid left to its bidder |
| `Markets.Market.ExecuteBid` | libraries/chain/db_market.cpp:176-204 | a bid becomes a position with its debt and its collateral plus the share of the fund |
| `Markets.Market.ExecuteBids` | libraries/chain/db_maint.cpp:824-846 | the new debts sum to the supply exactly, the fund is distributed completely and never goes negative midway, every bid but the last takes what it asked for, and no new position is callable |
| `Markets.Market.ProcessBids` | libraries/chain/db_maint.cpp:795-849 | the asset is revived exactly when some number of the best bids are acceptable and cover the supply; these open the positions with the debt they asked for and their share of the fund, the last one with the rest, and the other bidders have their collateral back; both final asserts hold |
| `Markets.Market.Revive` | libraries/chain/db_market.cpp:112-134 | the issuer takes over all of the supply with all of the fund; supply zero implies fund zero, so the assert cannot fail |
| `Markets.AboveLowest` | libraries/chain/db_update.cpp:222-272 | positions above maintenance cannot set off a black swan when the squeeze ratio is at most the maintenance ratio |
| `Markets.MakerDeal` | libraries/chain/db_market.cpp:1096-1126 | a resting bid that is margin called at its own price always receives something |
| `Markets.EligibleIsLowest` | libraries/chain/db_market.cpp:1046-1072 | the not-black-swan guard with a good enough best bid puts every position above the bid's price |
| `Markets.Market.OfferAsk` | libraries/chain/db_market.cpp:394-552 | from a book at rest to a book at rest for every new order, also on the early return: no opposite orders cross, none is dust; the order got its limit price or better, the rest of it waits or was dust; holdings minus supply are unchanged |
| `Markets.Market.OfferBid` | libraries/chain/db_market.cpp:394-552 | from a book at rest to a book at rest for every new order, also on the early return; every trade is with the best counterparty there is, so no margin call is made past a better ask and no worse ask is met before a margin call; the order got its limit price or better and the rest of it waits or is returned as too small; lifecycle, holdings minus supply and the margin call invariants are kept |
| `Markets.Market.CreateAsk` | libraries/chain/market_evaluator.cpp:96-125 | the same for the whole operation; an order that must be filled at once and is not leaves everything as it was |
| `Markets.Market.CreateBid` | libraries/chain/market_evaluator.cpp:96-125 | the same for the whole operation; an order that must be filled at once and is not leaves everything as it was |
| `Markets.Market.PublishFeed` | libraries/chain/asset_evaluator.cpp:976-1031 | a settled asset whose fund is above maintenance is revived, and stays so through the check that follows if and only if nothing of it is left or its fund is above the lower of the squeeze price and the best bid; one that is not revivable stays settled; what follows is the run of margin calls from the state at hand or revived |
| `Markets.RevivedForGood` | libraries/chain/db_update.cpp:222-272 | with a squeeze ratio of at most the maintenance ratio a revived asset always stays revived |
| `Markets.MayBeSettledAgain` | libraries/chain/db_update.cpp:222-272 | with a higher one it may be settled again at once |
| `Markets.Market.MatchBetterAndCalls` | libraries/chain/db_market.cpp:470-507 | the first two passes: asks better than the squeeze price, then margin calls, each trade with the best counterparty there is |
| `Markets.Market.ApplyBid` | libraries/chain/db_market.cpp:449-552 | the same with the cull of what is left |
| `Markets.DueIsWorth` | libraries/chain/db_market.cpp:75-92 | a settled position pays all its collateral or its debt's worth, and never one unit more than that |
| `Markets.RefundAllGives` | libraries/chain/db_market.cpp:75-95 | each borrower, and nobody else, has back what its positions did not pay |
| `Markets.AdjustedIs` | libraries/chain/market_evaluator.cpp:240-300 | only the account's own position changes, to the new collateral, debt and target; it goes exactly with its debt and its collateral, and anything else without positive debt and collateral is refused |
| `Markets.MoveGives` | libraries/chain/market_evaluator.cpp:223-239 | moving an amount changes one balance by it and no other |
| `Settlement.SettleKeepsBacking` | libraries/chain/asset_evaluator.cpp:859-905 | every redemption keeps fund * S0 >= supply * F0, never asks for more than the fund holds, pays the value rounded down for its worth rounded up, and empties the fund exactly with the last unit of supply |
| `Settlement.ShareKeepsBacking` | libraries/chain/db_maint.cpp:833-848 | a bid's share of the fund never exceeds it and leaves the rest of the supply backed |
| `Settlement.LastBidIsAcceptable` | libraries/chain/db_maint.cpp:836-840 | the last bid, which takes the remaining debt and the remaining fund, is above maintenance as well |
| `Settlement.AcceptedBids` | libraries/chain/db_maint.cpp:807-822 | the prefix of bids accepted covers the supply exactly when some acceptable prefix does |
| `Settlement.BidPlace` | libraries/chain/include/graphene/chain/market_object.hpp:244-265 | a new bid stands behind all bids with as much collateral per debt and before all others, so bids are processed best first |
| `Settlement.AcceptableIff` | libraries/chain/db_maint.cpp:809-819 | a bid is acceptable exactly when the position it would open, with its part of the fund rounded down, is out of margin call territory |
| `Settlement.ReturnBidsGives` | libraries/chain/db_market.cpp:145-159 | each bidder, and nobody else, has the collateral of its bids back |
| `ForcedSettlement.TermsAreFair` | libraries/chain/db_market.cpp:705-802 | a match with a settlement order takes no more than position, order and limit hold, so the collateral assert cannot fail; the re-rounded amount is never greater than the old one; the position stays above the price; what is left of order or limit is worth nothing |
| `ForcedSettlement.NextMatch` | libraries/chain/db_update.cpp:453-459 | after a match that completes neither side the next one settles nothing if and only if its position owes more than what remains of the limit |
| `ForcedSettlement.NextMatchMaySettle` | libraries/chain/db_update.cpp:453-459 | an example in which the next match does settle something, against the comment |
| `ForcedSettlement.CapIsShare` | libraries/chain/asset_object.cpp:33-44 | the cap is the configured share of supply plus volume settled already, rounded down |
| `ForcedSettlement.MatchKeeps` | libraries/chain/db_market.cpp:705-809 | a match keeps the lifecycle of the asset and the margin call invariants and conserves both assets; the owner of the order has the collateral less the market fee, the borrower of a closed position what is left of it, and what the owner has back of an order that goes is worth nothing |
| `ForcedSettlement.LeastOf` | libraries/chain/db_update.cpp:429-432 | an asset with a settlement order waiting has a position: the assert holds |
| `ForcedSettlement.SettlementQueue.Request` | libraries/chain/asset_evaluator.cpp:906-915 | a request moves the amount from the balance into an order, placed by asset, date and id, and keeps all invariants |
| `ForcedSettlement.SettlementQueue.CancelOrder` | libraries/chain/db_market.cpp:206-219 | cancelling returns the balance to its owner and nothing else changes |
| `ForcedSettlement.SettlementQueue.Match` | libraries/chain/db_market.cpp:705-809 | the order meets the least collateralised position on the terms above; every account has what it is due and nobody else anything; the order is gone or keeps exactly the rest |
| `ForcedSettlement.SettlementQueue.SettleOne` | libraries/chain/db_update.cpp:424-473 | the inner loop terminates with the order gone or the asset exhausted; the volume stays within the cap, supply plus volume is unchanged, and an order that goes returns nothing of worth to its owner |
| `ForcedSettlement.SkipAsset` | libraries/chain/db_update.cpp:315-334 | moving on from an order leaves only orders of its asset that may wait |
| `ForcedSettlement.MarginIsAbove` | libraries/chain/db_update.cpp:405-432 | where margin calls are settled, every position is above the settlement price |
| `ForcedSettlement.SettlementQueue.ClearExpired` | libraries/chain/db_update.cpp:304-475 | the nested loop terminates; each queue is served from its front, only orders that are due or of a settled asset, and all they return where there is a feed is worth nothing; without a feed nothing is settled; no asset settles more than its cap; afterwards an order waits only if its asset is not settled and either it is not due or the volume is used up or worth nothing; both assets are conserved and the lifecycle and margin call invariants are kept everywhere |
| `ForcedSettlement.SettlementQueue.ServeBlock` | libraries/chain/db_update.cpp:304-475 | over all blocks of a maintenance interval, with any other operations between them, no asset settles more than the highest cap it had in the interval |
| `ForcedSettlement.SettlementQueue.Maintain` | libraries/chain/db_maint.cpp:914-918 | the reset that ends an interval keeps all invariants |
| `ForcedSettlement.PeakIsShare` | libraries/chain/asset_object.cpp:33-44 | while supply and settled volume together stay within a bound, the volume of the interval stays within the configured share of it |
| `ForcedSettlement.MatchPays` | libraries/chain/db_market.cpp:802-809 | who has what after a match, for every account and both assets |
| `DeferredFees.PaidShareBounds` | libraries/chain/db_market.cpp:236-275 | the pro-rata cancellation fee is positive and no more than was paid, and the seller gets back the remaining share rounded down |
| `DeferredFees.ProceedsPosts` | libraries/chain/db_market.cpp:1225-1278 | what a seller receives is split between seller, accumulated fees and rewards without loss |
| `DeferredFees.RefundedPosts` | libraries/chain/db_market.cpp:221-315 | what a cancelled order held of every asset is exactly what is posted |
| `DeferredFees.DropKeeps` | libraries/chain/db_market.cpp:279-291 | removing an order keeps each account's core asset in orders exact and never negative |
| `DeferredFees.FeeBook.CancelOrder` | libraries/chain/db_market.cpp:221-315 | cancelling charges at most the deferred fee, returns the rest in the asset it was paid in and the core part to its pool; every asset is conserved |
| `DeferredFees.FeeBook.FillOrder` | libraries/chain/db_market.cpp:811-864 | a fill pays the seller, and nobody else, through market fees and rewards, and the deferred fee with the first fill only; it changes what is held of the two assets by the amounts traded and of no other asset, and the order is gone exactly when it is filled or the rest, which is returned, asks for nothing |
| `DeferredFees.FeeBook.Match` | libraries/chain/db_market.cpp:564-629 | a match of two orders of any market pays each seller what the other one sold less the market fee, and nobody else; it leaves what is held of every asset unchanged, fees, rewards and culling included, and always removes an order |
| `DeferredFees.FeeBook.Place` | libraries/chain/market_evaluator.cpp:68-112 | placing an order succeeds exactly when balance and fee pool suffice; until the fee is paid, exactly the fee is held twice |
| `DeferredFees.FeeBook.Create` | libraries/chain/market_evaluator.cpp:68-125 | creating an order matches it with the given orders in turn, wherever both are there and cross, and then pays the fee; that conserves every asset or changes nothing, and succeeds exactly when the order can be placed and the balance after the trades covers the fee |
| `DeferredFees.RefundedGives` | libraries/chain/db_market.cpp:221-315 | who has what after a cancellation, for every account and asset: the seller what was on sale and the rest of the fee in the asset it was paid in, the pool its core asset, the network the cancellation fee |
| `DeferredFees.PaidGives` | libraries/chain/db_market.cpp:811-840 | who has what after a fill: the seller what it received less the market fee, the network the deferred fee, and nobody else anything |
| `UndoDatabases.LeadsBack` | libraries/db/undo_database.cpp:108-136 | undoing a diff gives back all objects and next ids as they were |
| `UndoDatabases.MatrixIsSound` | libraries/db/undo_database.cpp:138-256 | each of the 16 combinations: undoing the merged entry is undoing both entries in turn |
| `UndoDatabases.CausalOrder` | libraries/db/undo_database.cpp:138-200 | the combinations the matrix rules out cannot occur |
| `UndoDatabases.ComposedLeads` | libraries/db/undo_database.cpp:138-256 | undoing a merged state equals undoing both states in turn, for all objects and next ids at once |
| `UndoDatabases.MergeStates` | libraries/db/undo_database.cpp:205-250 | the loops of merge compute that composition, its impossible cases never met |
| `UndoDatabases.MergeRemoved` | libraries/db/undo_database.cpp:226-250 | the pass over removed objects |
| `UndoDatabases.Undone` | libraries/db/undo_database.cpp:108-136 | the loops of undo restore exactly the state before, and never touch a missing object or insert an existing one |
| `UndoDatabases.UndoDatabase.constructor` | libraries/db/include/graphene/db/undo_database.hpp:125-137 | an empty history is faithful |
| `UndoDatabases.UndoDatabase.Create` | libraries/db/undo_database.cpp:60-72 | a creation is recorded so that the history stays faithful |
| `UndoDatabases.UndoDatabase.Modify` | libraries/db/undo_database.cpp:73-85 | so is a change |
| `UndoDatabases.UndoDatabase.Remove` | libraries/db/undo_database.cpp:86-107 | so is a removal |
| `UndoDatabases.UndoDatabase.Undo` | libraries/db/undo_database.cpp:108-136 | undoing the innermost session gives the database at its start and keeps the other sessions |
| `UndoDatabases.UndoDatabase.Merge` | libraries/db/undo_database.cpp:138-256 | merging keeps every remaining snapshot reachable |
| `UndoDatabases.UndoDatabase.Commit` | libraries/db/undo_database.cpp:258-263 | committing keeps the states |
| `UndoDatabases.UndoDatabase.PopCommit` | libraries/db/undo_database.cpp:264-300 | popping gives the database at the start of the last committed state |
| `UndoDatabases.UndoDatabase.RevertTop` | libraries/db/undo_database.cpp:108-136 | reverting the top diff gives its snapshot |
| `UndoDatabases.RevertToSnapshot` | libraries/db/undo_database.cpp:108-136 | reverting the top k diffs yields exactly the objects and next ids at the start of the k-th session from the top |
| `UndoDatabases.UndoDatabase.StartSession` | libraries/db/undo_database.cpp:46-59 | the oldest states are dropped to fit the limit; every active session keeps its state if and only if there are no more active sessions than the limit |
| `UndoDatabases.UndoDatabase.EndSession` | libraries/db/undo_database.cpp:33-44 | a session that ends without being committed or merged is undone exactly, and one that enabled the database disables it again |
| `Forks.FetchBranches` | libraries/chain/fork_database.cpp:148-190 | the two branches found end at a common parent and every other pair of branches with a common root extends them; nothing is found only if there is no such pair |
| `Forks.BlocksAreBranch` | libraries/chain/fork_database.cpp:148-190 | the blocks that can be undone are those of the branch of the head |
| `Forks.CanRollBackMeans` | libraries/chain/db_update.cpp:72-82 | the accepted blocks of a failed switch can be popped again if and only if none was accepted, or each block that set a limit saw an irreversible number of at most its own number plus two less the length of the branch |
| `Forks.PopsIff` | libraries/chain/db_block.cpp:177-184 | popping them succeeds exactly then, and otherwise stops at a block that the fork database has pruned, never for want of undo states |
| `Forks.TopSurvives` | libraries/chain/fork_database.cpp:100-115 | the head of the fork database and the two numbers below it are never pruned |
| `Forks.ChainDatabase.constructor` | libraries/chain/fork_database.cpp:28-36 | the empty chain database is valid |
| `Forks.ChainDatabase.SetLimit` | libraries/chain/db_update.cpp:81-82 | one limit for undo states and fork database; blocks too far below the fork head are forgotten |
| `Forks.ChainDatabase.Apply` | libraries/chain/db_block.cpp:160-164 | a block is applied in its own session, or refused with no trace but the trimming of undo states and, if refused late, the pruning of the fork database; the irreversible number follows the vote, and every block above the highest one can still be undone |
| `Forks.ChainDatabase.PopBlock` | libraries/chain/db_block.cpp:463-477 | popping gives the state before the block, exactly when undo state and fork database allow it |
| `Forks.ChainDatabase.PopDownTo` | libraries/chain/db_block.cpp:148-152 | popping reaches its target exactly when there are undo states for all blocks on the way and the fork database knows them, and stops where not |
| `Forks.ChainDatabase.ForkRemove` | libraries/chain/fork_database.cpp:197-214 | the block goes, and if it was the head its parent becomes the head if it is known |
| `Forks.ChainDatabase.PushBranch` | libraries/chain/db_block.cpp:155-165 | the blocks applied are the longest acceptable part of the replay; exactly the blocks that no limit has pruned are still known |
| `Forks.ChainDatabase.PushBack` | libraries/chain/db_block.cpp:187-194 | by determinism, applying the old blocks again restores the original state, and the head stays known |
| `Forks.ChainDatabase.RemoveRejected` | libraries/chain/db_block.cpp:170-175 | the refused block and the newer ones leave the fork database |
| `Forks.ChainDatabase.RollBack` | libraries/chain/db_block.cpp:166-195 | a failed switch restores chain, fork head and head block if and only if the accepted blocks can be popped again; otherwise the chain is left on the newest accepted block that was pruned |
| `Forks.ChainDatabase.SwitchForks` | libraries/chain/db_block.cpp:145-198 | every end of a switch: no common parent, too few undo states, the replay of the new branch from the common parent, the state before, or a broken rollback, each exactly when; a branch that leaves at or above the highest irreversible block never lacks undo states |
| `Forks.ChainDatabase.TakeAndSwitch` | libraries/chain/db_block.cpp:130-198 | the same from the arrival of the block, with all invariants |
| `Forks.ChainDatabase.TakeAndApply` | libraries/chain/db_block.cpp:203-212 | a block on the head is applied or forgotten |
| `Forks.ChainDatabase.PushBlock` | libraries/chain/db_block.cpp:130-215 | every outcome of pushing any block to a chain database in step with its fork database, each exactly when; only accepted blocks change the state, and all outcomes but three leave the two in step |
| `ForkRuns.BrokenRun` | libraries/chain/db_block.cpp:166-195 | a run with no irreversible block at all whose fork switch breaks: the first block of the new branch prunes itself, the third is refused, and the chain is left on the first with its old head above it |
| `ForkRuns.UnconnectedRun` | libraries/chain/fork_database.cpp:148-190 | a run in which a longer branch finds no common parent, because it was pruned, and stays in the fork database above the head |
| `Irreversible.ThresholdBacking` | libraries/chain/db_update.cpp:120-134 | the vote at the offset is the highest block that the threshold share of the active witnesses, counted one by one, has confirmed: a block is backed if and only if it is not above that vote |
| `Irreversible.NthUnique` | libraries/chain/db_update.cpp:128-134 | the element at the offset does not depend on how it is selected |
| `Irreversible.UpdateLastIrreversible` | libraries/chain/db_update.cpp:107-142 | the number is raised to the highest block backed by the threshold share of the active witnesses, which one of them has confirmed, and never lowered |
| `Irreversible.StepKeeps` | libraries/chain/db_update.cpp:85-142 | a block is confirmed by its signer only, keeps the irreversible number at or below the head and raises it to the highest block the threshold share backs |
| `Irreversible.NeverFalls` | libraries/chain/db_update.cpp:107-142 | along any chain from the genesis the last irreversible number never decreases |
| `Irreversible.ChainIsValid` | libraries/chain/db_update.cpp:107-142 | along any such chain it never exceeds the head, and no witness has confirmed a later block |
| `Irreversible.EachAdvanceIsBacked` | libraries/chain/db_update.cpp:107-142 | every irreversible number of a chain was set by one of its blocks, as the highest block that the threshold share of the witnesses active at that block had confirmed |
| `Irreversible.History.StartSession` | libraries/db/undo_database.cpp:46-59 | exactly the excess over the limit is dropped, never the state of an active session |
| `Irreversible.History.PushProposal` | libraries/chain/db_block.cpp:285-326 | proposals nested to any depth drop no committed state |
| `Irreversible.History.PushTransaction` | libraries/chain/db_block.cpp:238-261 | the pending session and the one inside it keep every block above the irreversible one undoable |
| `Irreversible.History.ValidateTransaction` | libraries/chain/db_block.cpp:263-267 | so does validation |
| `Irreversible.History.PushBlock` | libraries/chain/db_update.cpp:72-82 | a block is the step above or changes nothing, whether it is refused before or after the limit is set; either way the committed states cover every block above the highest irreversible one, which on a chain that only grows is the current one |
| `Irreversible.History.PopBlock` | libraries/chain/db_block.cpp:463-477 | every block above the highest irreversible one can be popped |
| `Irreversible.VotesAreBackers` | libraries/chain/db_update.cpp:113-135 | the votes at or above a block are as many as the active witnesses that have confirmed it or a later one |
| `Vesting.AllowedBound` | libraries/chain/vesting_balance_object.cpp:118-127 | never more than the balance may be withdrawn: the assert holds for every state and time |
| `Vesting.FullyVested` | libraries/chain/vesting_balance_object.cpp:92-127 | a balance left alone for the holding time can be withdrawn completely |
| `Vesting.UpdateIsInvisible` | libraries/chain/vesting_balance_object.cpp:92-116 | an update at an intermediate time changes nothing observed later |
| `Vesting.StepKeeps` | libraries/chain/vesting_balance_object.cpp:129-152 | every deposit, vested deposit and allowed withdrawal keeps coin-seconds within balance times holding time, and a withdrawal has earned what it needs |
| `Vesting.RunKeeps` | libraries/chain/vesting_balance_object.cpp:92-160 | so does every run at non-decreasing times |
| `Vesting.ExtraUpdate` | libraries/chain/vesting_balance_object.cpp:112-116 | an extra update inserted anywhere in a run makes no difference to balances or to what may be withdrawn from then on |
| `Vesting.WithdrawalsAreEarned` | libraries/chain/vesting_balance_object.cpp:92-160 | over every run, the holding time of all coins withdrawn is at most the coin-seconds held and granted: none is spent twice |
| `Vesting.VestingBalance.Deposit` | libraries/chain/vesting_balance_object.cpp:230-235 | depositing first settles the coin-seconds of the old balance |
| `Vesting.VestingBalance.DepositVested` | libraries/chain/vesting_balance_object.cpp:237-242 | a vested deposit brings exactly the coin-seconds to withdraw it |
| `Vesting.VestingBalance.Withdraw` | libraries/chain/vesting_balance_object.cpp:249-255 | both asserts hold for every allowed withdrawal |
| `Vesting.LinearRunKeeps` | libraries/chain/vesting_balance_object.cpp:38-90 | over every run of deposits and withdrawals a linear balance never allows more than the balance, and its asserts hold if and only if the cliff has not passed or the balance has not grown beyond the initial one |
| `Vesting.WithdrawOnly` | libraries/chain/vesting_balance_object.cpp:38-67 | without deposits the asserts never fail |
| `Vesting.DepositTripsAssert` | libraries/chain/vesting_balance_object.cpp:73-77 | a deposit, which the policy allows, makes the assert on the amount withdrawn already fail |
| `Vesting.VestedGrows` | libraries/chain/vesting_balance_object.cpp:44-58 | the vested amount never falls and never exceeds the initial balance |
| `Vesting.AllowedIsMost` | libraries/chain/vesting_balance_object.cpp:118-127 | nothing may be withdrawn up to the start of the claim, and from then on an amount may be exactly when its holding time has been earned |
| `Vesting.VestedIsShare` | libraries/chain/vesting_balance_object.cpp:44-58 | nothing has vested before the cliff, the share of the time passed, rounded down, until the end, and all from then on |
| `Budget.BudgetIsPositive` | libraries/chain/db_maint.cpp:434-447 | the budget is at most the reserve, and positive if and only if the reserve is not empty and time has passed |
| `Budget.BudgetGrows` | libraries/chain/db_maint.cpp:434-447 | waiting longer never releases less, and an interval releases the given share rounded up, up to the reserve |
| `Budget.ActiveWorkers` | libraries/chain/db_maint.cpp:153-175 | the workers paid are exactly the active ones with positive support, by votes and then by id |
| `Budget.AtMostOneShort` | libraries/chain/db_maint.cpp:181-199 | at most one worker is paid short |
| `Budget.PaymentsAreUnique` | libraries/chain/db_maint.cpp:181-199 | order and budget decide all payments |
| `Budget.CoreAsset.PayWorker` | libraries/chain/worker_evaluator.cpp:107-127 | a refund leaves the supply, other pay is held for the worker |
| `Budget.CoreAsset.PayWorkers` | libraries/chain/db_maint.cpp:153-200 | a worker gets something only when all before it got everything, money is left over only when all are paid, payouts plus leftover equal the budget, and each payout is credited to its worker |
| `Budget.CoreAsset.ProcessBudget` | libraries/chain/db_maint.cpp:455-548 | a round spends at most reserve, fees and unused witness budget, so the supply never exceeds its maximum; every unit of the supply is still held by someone |
| `Budget.CoreAsset.PayWitness` | libraries/chain/db_update.cpp:91-98 | witness pay comes out of the witness budget |
| `Budget.CreditAllGives` | libraries/chain/db_maint.cpp:181-199 | each worker has its own pay, except for a refund, and nobody else anything |
| `Budget.RequestedIsShare` | libraries/chain/db_maint.cpp:181-190 | the pay of a worker is the daily pay for the time passed, rounded down |
| `WitnessSchedule.ShuffleIsPermutation` | libraries/chain/db_witness_schedule.cpp:112-131 | the swaps give a permutation for all draws |
| `WitnessSchedule.ShuffleIsInjective` | libraries/chain/db_witness_schedule.cpp:112-131 | different draws give different orders of the same witnesses |
| `WitnessSchedule.ShuffleIsSurjective` | libraries/chain/db_witness_schedule.cpp:112-131 | every order is the outcome of some draws |
| `WitnessSchedule.SlotsTile` | libraries/chain/db_witness_schedule.cpp:42-78 | slot numbers and slot times are inverse on slots from 1, with or without the maintenance skip: a time is in exactly one slot |
| `WitnessSchedule.SlotsAreLater` | libraries/chain/db_witness_schedule.cpp:42-69 | every slot from 1 on is after the head block |
| `WitnessSchedule.NoWitnessTwice` | libraries/chain/db_witness_schedule.cpp:34-40 | no witness has two of any N consecutive slots |
| `WitnessSchedule.EachWitnessOnce` | libraries/chain/db_witness_schedule.cpp:34-40 | any N consecutive slots schedule each of the N witnesses exactly once |
| `WitnessSchedule.Schedule.Update` | libraries/chain/db_witness_schedule.cpp:102-135 | for every timestamp, under 64-bit wraparound, the new list is a permutation of the active witnesses, the one the draws of that time give; it changes only once per round |
| `WitnessSchedule.Schedule.UpdateMissed` | libraries/chain/db_witness_schedule.cpp:80-95 | each witness whose slot passed is blamed once and nobody else, in particular not the producer |
| `WitnessSchedule.FirstSlot` | libraries/chain/db_witness_schedule.cpp:42-69 | the first slot is one interval after the genesis, and else the first multiple of the interval after the head block, later by the slots a maintenance block skips |
| `Synopsis.NumbersShape` | libraries/app/application.cpp:904-919 | a synopsis increases strictly and has at most floor(log2(d + 1)) + 1 entries for a segment of length d |
| `Synopsis.EndsAtHigh` | libraries/app/application.cpp:904-919 | with no blocks announced it ends exactly at the head or reference block |
| `Synopsis.GapsHalve` | libraries/app/application.cpp:904-919 | each entry is half way from the one before to the end |
| `Synopsis.Summarize` | libraries/app/application.cpp:904-922 | the loop yields these entries, from the block store and from the fork |
| `Synopsis.BlockIdsOnFork` | libraries/chain/db_block.cpp:91-107 | the branch of the reference point down to the nearest common ancestor with the chain, found exactly when there is one |
| `Synopsis.GetSynopsis` | libraries/app/application.cpp:805-923 | which segment is summarised, for every reference point, and exactly when it fails |
| `Synopsis.SynopsisIncreases` | libraries/app/application.cpp:805-923 | the ids of every synopsis increase in block number, are few, start and end where they should, and are those of the block store up to the fork and of the fork above it |
| `Synopsis.FindLast` | libraries/app/application.cpp:695-709 | the search from the end stops at the last entry in the block store or at one whose look-up fails |
| `Synopsis.Collect` | libraries/app/application.cpp:711-719 | a consecutive run and the exact number of blocks after it |
| `Synopsis.GetBlockIds` | libraries/app/application.cpp:675-721 | the whole reply: a consecutive run from the entry found, with the exact remaining count, and both errors exactly |
| `Synopsis.PromisedIff` | libraries/app/application.cpp:659-721 | to a synopsis with an entry on the chain, the reply is the run from the highest such entry if and only if no entry above the head is in the block store, or in the fork database above all stored blocks |
| `Synopsis.InStepIsPromised` | libraries/app/application.cpp:659-721 | while chain and fork database are in step, no synopsis has such an entry |
| `Synopsis.ReplyFails` | libraries/app/application.cpp:659-664 | after the run whose longer branch found no common parent, the reply to a peer on that branch fails |
| `Synopsis.ReplyIsEmpty` | libraries/app/application.cpp:711-719 | after the run with the broken rollback, the reply to a peer on the old branch is empty |
| `Synopsis.Handshake` | libraries/app/application.cpp:805-923 | the reply to a synopsis starts at a block both have, and repeats at most as many blocks as the sender has after the point where the chains part |
| `Synopsis.RunIsConsecutive` | libraries/app/application.cpp:711-719 | a reply has the ids of the chain from its start on, as many as there are up to the limit |

## Left out

- Pre-hardfork rules, one-time migrations and `apply_order_before_hardfork_625`.
- Prediction markets, whose positions are never margin called.
- Overflow: amounts are unbounded, where the source rejects results above the maximum share supply and checks its integers; the product in `on_deposit_vested` is unbounded too. Only the witness shuffle wraps at 64 bits.
- The rounding of a price times a ratio when the result does not fit the share supply; prices times ratios are exact. `MaxDebtToCover` takes the target as an argument so that it also covers a rounded one.
- The checks that turn a price over when it is in the other orientation; the dead return for strange data is not in the body of `SearchBetween`.
- A settlement offset of 100 percent, for which the source has no positive price.
- Median calculation, feed expiry and whitelist, authority and permission checks: one-branch checks.
- Expiry of limit orders and the order of virtual operations.
- Markets.Market.CreateAsk: the deferred creation fee is not part of this class, because it is modelled for all assets at once in `DeferredFees.dfy`; nor is the check that an order does not expire in the past.
- Markets.Market.CreateBid: as for `CreateAsk`.
- DeferredFees.FeeBook.Create: which orders are matched is an argument, because the order of matching is the subject of `Market.dfy`; margin calls are there as well.
- `total_core_in_orders` for positions; it is modelled for limit orders.
- ForcedSettlement.SettlementQueue.ClearExpired: the branch for an order of zero balance is left out because no order has one; several bitassets may share a backing asset, which is kept per bitasset here.
- UndoDatabases.UndoDatabase.StartSession: moving a session, which loses its request to disable the database, is left out; the equality is on the map of objects and the next ids, not on secondary indices.
- Forks.ChainDatabase.PushBlock: starts from a fork database in step with the chain, so a push after `Unconnected`, `Stuck` or `Broken` is left out; links between known blocks are by id, so a block that was removed and pushed again is linked to its children; popped transactions are left out.
- Irreversible.History.PushBlock: what a block does besides witnesses, sessions and proposals is one argument, its fate; the check of the undo history is never skipped.
- WitnessSchedule.NoWitnessTwice: the absolute slot number does not wrap at 64 bits.
- WitnessSchedule.EachWitnessOnce: as for `NoWitnessTwice`.
- Synopsis.GetSynopsis: that ids are hashes, so that a block of the chain has the parent the chain has, is an assumption.
- Instant vesting, in which every balance may be withdrawn at once.
- Voting, elections, fee-backed assets, confidential transfers, signatures, serialization, files, the network and all queries.
