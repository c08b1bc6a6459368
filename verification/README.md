# The exchange core, verified

This project models the core of the exchange and proves what its design relies
on: a price-time matching engine, the risk ledger that locks and settles funds
around it, the staged pipeline that joins the two, the id generator and the
journal codec.

It has three layers.

- **Reference functions on values.** `PriceTime.dfy` is the book as two flat
  lists and one greedy pass; `Ledger.dfy` is the balance store and the risk
  decisions; `QuoteMath.dfy` is the floored 64/128-bit quote arithmetic.
- **The code's own form.** `OrderBook.dfy`, `RiskEngine.dfy`, `Router.dfy`,
  `Snowflake.dfy`, `Journaling.dfy` and `Codec.dfy` are classes whose methods
  update levels, balances, counters, ring slots and buffers in place, with the
  loops of the source. Every method is proved to compute what a reference
  function says.
- **Laws.** What one request means in plain numbers (`RequestLaws.dfy`,
  `RiskLaws.dfy`, and the floor, layout and tick laws in `QuoteMath.dfy`,
  `Codec.dfy` and `Snowflake.dfy`), book invariants over every run
  (`BookLaws.dfy`, `BookRuns.dfy`), market data (`MarketData.dfy`), the pipeline as a step relation with one
  cursor per thread (`Pipeline.dfy`) and its invariants over every interleaving
  (`PipelineShape.dfy`, `PipelineSound.dfy`, `Claims.dfy`, `ClaimsMatching.dfy`,
  `Imbalance.dfy`, `Coverage.dfy`, `Conservation.dfy`, `Solvency.dfy`, `Dust.dfy`,
  `ExactlyOnce.dfy`, `Draining.dfy`), what all deposits bound (`GrossDeposits.dfy`,
  `BalanceBound.dfy`, `LockWrap.dfy`), the way of a cancel (`CancelPath.dfy`), one store per shard against one for all
  (`Sharding.dfy`), the ids that drive it (`IdSupply.dfy`), and the core one
  command at a time (`Core.dfy`: replay, price cache, cancel undoes place), which
  `Sequential.dfy` proves to be one interleaving of the pipeline.

Main results:

1. In every reachable state of every interleaving, the locked funds of every
   user and asset cover all outstanding claims, so no settlement leg and no
   release ever fails, and no credit overflows (`Solvency.ReachableBacked`,
   `Solvency.NoSettlementFails`). What a balance has locked beyond its claims is
   at most two units per trade it paid for, and nothing where the scales divide
   (`Dust.LockedWithin`, `Dust.LockedExactly`).
2. Whenever no command is half settled, balances plus removed fees equal deposits
   less withdrawals, for every asset (`Solvency.FundsConserved`); in every other
   state the difference is exactly the legs still open. No user ever has more
   available than the net deposits of the asset (`Solvency.AvailableBounded`), nor
   holds more in all than was ever deposited of it
   (`BalanceBound.HoldsWithinDeposits`). Every reachable state can be driven to one
   in which no command is half settled (`Draining.EveryRunDrains`).
3. Every leg and release is booked exactly once, and every accepted order is
   matched exactly once by the owner of its market (`ExactlyOnce.*`).
4. The nested matching loops with deferred removals compute one greedy pass over
   the flat price-time list (`OrderBooks.OrderBook.MatchOrder`), which conserves
   quantity, respects strict priority, never trades beyond a limit
   (`RequestLaws.TradesWithinLimit`) and never trades a user with itself.
5. On every clock that never runs back, the ids of a generator increase strictly,
   also for a caller that goes on after errors (`Snowflakes.IdsIncrease`), and
   they satisfy the id guard of the pipeline over all markets
   (`IdSupply.GeneratorEnables`).
6. With one balance store per shard, as the code has it, every interleaving takes
   every command, book and balance where one store for all takes them
   (`Sharding.ReachableDivided`, `Sharding.StepsDivided`).
7. Replaying the decoded journal rebuilds books, cached prices and balances,
   whether a record was taken before or after the first risk stage
   (`CoreRuns.ReplayRebuilds`).

## Hypotheses

- Placed sizes are positive, prices are machine words, new commands carry status
  Processing and no events (`orderbook/src/lib.rs:224-231`). Ids of new orders
  are fresh and increasing; `Journaling.JournaledRun` for one book and
  `IdSupply.GeneratorEnables` for the whole pipeline derive this from the
  generator.
- `ReservationFits`: the quote cost of an order fits 64 bits and its product 128
  bits. `QuoteMath.CutReservationFails` shows the covering theorem fails without.
- `ReservationLocks`: a lock does not wrap the locked funds of its own balance. This
  and `NetFits` follow where all deposits of each asset fit a machine word
  (`BalanceBound.DepositsSuffice`); they do not follow from net deposits alone
  (`LockWrap.LockWraps`).
- `NetFits`: deposits less withdrawals of each asset fit a machine word. That
  every settlement credit, refund and release then has room is proved, not
  assumed (`Imbalance.AvailableRoom`).
- `LevelsFit`, only for the fill-or-kill law: what is eligible at each price fits
  a machine word. `BookLaws.CountedExact` shows that the count is right exactly
  then, and `BookRuns.WrappedLevel` gives a book for which it is not.
- `GoodConfig`: shard counts are powers of two, market ids are distinct, fees are
  at most 10000 basis points.

## Where the code and its documentation differ

The model follows the code in each case.

- The pipeline comments number journaling as a stage before the first risk stage,
  but `server/src/engine.rs:287-317` adds all five handlers to one group, without
  a barrier between them. Journaling and the first risk stage may therefore see a
  command in either order; `CoreRuns.ReplayRebuilds` is proved for both.
- A cancel looks among the bids first (`orderbook/src/lib.rs:323-330`). When a user
  rests a bid and an ask at one price, cancelling the ask is rejected and the ask
  stays in the book without an index entry (`BookRuns.LostAsk`). The index is
  complete, and a cancel exact, precisely when that does not happen
  (`BookLaws.CancelExact`, `BookRuns.RunComplete`).
- Level volumes and the count of `can_fill_completely` are 64-bit sums that wrap in
  a release build (`orderbook/src/lib.rs:65`, `:384-413`). A published volume is
  the true one exactly when it fits a machine word. Two bids of 2^63 each at
  price 0, which cost nothing, make a fill-or-kill sell of one unit be cancelled
  and the level show volume 0 (`BookRuns.WrappedLevel`).
- `balance.locked += amount` (`common/src/user_profile.rs:96`) is not checked. One
  user sells 2^64 - 1 units, the buyer's shard settles first and the buyer takes
  them out, and the seller pays in and offers 2^64 - 1 again before the seller's own
  shard has settled: the lock wraps, with net deposits within a word throughout
  (`LockWrap.LockWraps`).
- The comments on the price cache getters (`common/src/order.rs:77-95`) describe
  what is returned for an unknown market, not for an empty side, and
  `update_prices` does not create a missing market.

## Model

| member | source | states |
|---|---|---|
| OrderBooks.CalcFilledSize | common/src/cmd.rs:359-367 | the walk over the chain adds up exactly what its events traded |
| OrderBooks.PriceCache.constructor | common/src/order.rs:69-75 | every configured market starts with bid 0 and ask u64::MAX |
| OrderBooks.BookSide.BestPrice | orderbook/src/tree.rs:36-44 | the first level in tree order gives the best price of the flat list, with the sentinel of an empty side |
| OrderBooks.BookSide.GetOrCreateLevel | orderbook/src/tree.rs:75-77 | finds the level of a price or adds an empty one in key order, without changing the flat list |
| OrderBooks.BookSide.AddOrder | orderbook/src/lib.rs:64-68 | pushing behind the queue is insertion in price-time order, and the cached volume stays the level's sum modulo 2^64 |
| OrderBooks.BookSide.RemoveLevelIfEmpty | orderbook/src/tree.rs:79-85 | drops the level of that price if it is empty and nothing else |
| OrderBooks.BookSide.RemoveLevels | orderbook/src/lib.rs:202-205 | the third pass leaves no empty level and the same flat list |
| OrderBooks.OrderBook.FillMakers | orderbook/src/lib.rs:153-190 | the inner loop over one level does the greedy pass: live queue, recorded positions, volume, remaining size, events and index all agree with it |
| OrderBooks.OrderBook.RemoveFilled | orderbook/src/lib.rs:192-195 | removing the recorded positions from the back leaves exactly the orders that still have size |
| OrderBooks.OrderBook.MatchLevel | orderbook/src/lib.rs:150-200 | one level after matching and deletion is the pass over its queue, and its cached volume stays the sum modulo 2^64 |
| OrderBooks.OrderBook.MatchLevels | orderbook/src/lib.rs:143-201 | the outer loop is the pass over the flattened side, and every emptied level is remembered |
| OrderBooks.OrderBook.MatchOrder | orderbook/src/lib.rs:126-208 | the whole of matching refines one greedy fold over the price-time list: same events in order, same book, same index, same remaining size; no new event is beyond the limit of the command or with its own user |
| OrderBooks.OrderBook.AddToBook | orderbook/src/lib.rs:350-368 | the rest of an order is inserted at its price-time place and indexed at its price |
| OrderBooks.OrderBook.CanFillCompletely | orderbook/src/lib.rs:372-421 | the early-exit count holds exactly when the wrapped sums of the levels reach the size, and then others offer that size within the limit |
| OrderBooks.OrderBook.RecordSnapshot | orderbook/src/lib.rs:440-462 | the snapshot is the reference snapshot of the book |
| OrderBooks.OrderBook.UpdatePriceCache | orderbook/src/lib.rs:341-347 | the cache entry of the market becomes the highest resting bid and the lowest resting ask, 0 and u64::MAX when there is none |
| OrderBooks.OrderBook.PlaceOrder | orderbook/src/lib.rs:232-294 | placing equals the reference on book, index and command for every time in force; no trade is beyond the limit; the cache entry is the true best bid and best ask |
| OrderBooks.OrderBook.BinarySearch | orderbook/src/lib.rs:71-75 | on a queue strictly increasing in id the search finds the order exactly when it is there |
| OrderBooks.OrderBook.RemoveOrder | orderbook/src/lib.rs:71-87 | the named order leaves its queue and the cached volume, and its fields go into the command |
| OrderBooks.OrderBook.CancelOrder | orderbook/src/lib.rs:317-339 | cancelling equals the reference on book, index and command, including every rejection; the cache entry is the true best bid and best ask |
| PriceLevels.FlattenPrices | orderbook/src/tree.rs:66-100 | orders in front of a tree position have better prices, orders behind it do not |
| PriceLevels.PushIsInsert | orderbook/src/lib.rs:362-367 | a push at the end of a level is an insertion into the flat list |
| PriceLevels.CancelInLevel | orderbook/src/lib.rs:70-87 | removing one queue position removes the order of that price and id from the flat list, and its size from the cached volume modulo 2^64 |
| PriceLevels.CachedVolumeTrue | orderbook/src/lib.rs:64-87 | a cached volume is the true one if and only if the sum of the level fits a machine word |
| Matching.SweepFills | orderbook/src/lib.rs:162-184 | incoming size is traded plus remaining, and traded is the minimum of size and eligible volume |
| Matching.SweepTrades | orderbook/src/lib.rs:158-184 | every event is a truthful trade with an eligible maker of another user |
| Matching.SweepKeeps | orderbook/src/lib.rs:162-195 | every maker either stays, possibly reduced, or was completed by an event |
| Matching.SweepCompletes | orderbook/src/lib.rs:186-195 | a completed maker is gone from the list |
| Matching.SweepCompletion | orderbook/src/lib.rs:164-184 | only the last event marks the taker complete, and exactly when nothing is left |
| Matching.SweepExhausts | orderbook/src/lib.rs:146-160 | if the taker has size left, no eligible maker is left |
| Matching.SweepPriority | orderbook/src/lib.rs:146-200 | when a maker trades, every eligible maker ahead of it was filled completely by the same command |
| Matching.SweepGood | orderbook/src/lib.rs:126-208 | matching keeps a side sorted, its ids distinct and its sizes positive |
| BookLaws.PlaceGood | orderbook/src/lib.rs:232-294 | placing keeps every book invariant, and index completeness |
| BookLaws.PlaceNotCrossed | orderbook/src/lib.rs:239-253 | after placing, a bid and an ask that could trade belong to one user |
| BookLaws.CancelGood | orderbook/src/lib.rs:317-339 | cancelling keeps every book invariant |
| BookLaws.CancelExact | orderbook/src/lib.rs:317-339 | a cancel of an indexed order removes exactly that order, succeeds and keeps the index complete, if and only if it is not an ask whose price is also on the bid side |
| BookLaws.CancelReports | orderbook/src/lib.rs:71-87 | the command of a successful cancel carries owner, side, price, remaining and original size of the order |
| BookLaws.FillOrKill | orderbook/src/lib.rs:254-267 | fill-or-kill trades in full when the count reaches its size, and otherwise leaves book and events untouched; the fallback after matching is never taken |
| BookLaws.CountedExact | orderbook/src/lib.rs:372-421 | the count never exceeds the eligible volume, and equals it if and only if what is eligible at each price fits a machine word |
| BookLaws.CountsOffered | orderbook/src/lib.rs:372-421 | fill-or-kill counts no size beyond what others offer within the limit |
| BookLaws.FillOrKillFills | orderbook/src/lib.rs:254-267 | with each price within a machine word a fill-or-kill order is filled if and only if what others offer within its limit, counted order by order, reaches its size |
| BookLaws.FillOrKillExact | orderbook/src/lib.rs:254-267 | fill-or-kill decides by what is offered within the limit, for every size, if and only if what is eligible at each price fits a machine word |
| BookLaws.PlaceConserves | orderbook/src/lib.rs:238-280 | traded plus outgoing size is incoming size, and the status names the case exactly |
| BookLaws.CancelUndoesPlace | orderbook/src/lib.rs:317-368 | cancelling an order that did not trade restores book and index, if and only if it was a bid or no bid rests at its price |
| RequestLaws.TradesWithinLimit | orderbook/src/lib.rs:128-149 | no buy trades above its limit, no sell below it, and nobody trades with itself |
| RequestLaws.ServedInOrder | orderbook/src/tree.rs:66-140 | bids are served from the highest price down, asks from the lowest up, and orders of one price by age |
| RequestLaws.RestRests | orderbook/src/lib.rs:350-368 | what a good-till-cancelled order does not trade rests with all its fields, indexed at its price; nothing rests of any other order |
| RequestLaws.ReportsPrice | orderbook/src/lib.rs:283-289 | a market sell that trades reports the best bid of another user, and every other order keeps its price |
| RequestLaws.UnknownCancel | orderbook/src/lib.rs:335-337 | a cancel of an order that is not indexed is rejected and changes nothing |
| RequestLaws.RejectedPasses | orderbook/src/lib.rs:234-236 | a request that is already rejected changes neither book nor command |
| BookRuns.ReachableInvariant | orderbook/src/lib.rs:126-368 | all book invariants, no crossing and the size accounts hold after every run of places and cancels |
| BookRuns.RunComplete | orderbook/src/lib.rs:323-330 | the index is complete after every prefix of a run if and only if no cancel of the run meets an ask whose price is also on the bid side |
| BookRuns.LostAsk | orderbook/src/lib.rs:323-330 | a bid, an ask of the same user at the same price and a cancel of the ask leave the ask resting without an index entry |
| BookRuns.WrappedLevel | orderbook/src/lib.rs:384-413 | two bids of 2^63 at price 0 make a fill-or-kill sell of one unit be cancelled and the level show volume 0 |
| BookRuns.PublishedMaker | processors/src/events.rs:306-311 | original less remaining size of a maker event is all that order ever traded; no underflow, and never the taker itself |
| BookRuns.PublishedTaker | processors/src/events.rs:613-615 | filled plus remaining size of a taker is its incoming size and its whole history |
| BookRuns.PublishedCancel | processors/src/events.rs:616-618 | original less remaining size of a cancel is all the order ever traded; no underflow |
| MarketData.SnapshotTrue | orderbook/src/lib.rs:440-462 | a snapshot holds the first ten price levels per side, strictly sorted, leaves out only worse ones, and shows each volume modulo 2^64, so truly if and only if it fits |
| MarketData.BestPriceIsBest | orderbook/src/tree.rs:36-44 | the head of a side is the highest bid or the lowest ask a full scan finds |
| MarketData.TopTrue | orderbook/src/lib.rs:341-347 | the pair stored in the cache is at least every bid and at most every ask, and attained unless the side is empty |
| QuoteMath.CostSplitSize | common/src/market_specification.rs:36-46 | costs of two parts never exceed the cost of the whole and lose at most one unit |
| QuoteMath.CostSplitPrice | processors/src/risk_engine.rs:219-239 | refund and spend of a trade never exceed its reservation and lose at most one unit |
| QuoteMath.CostIsFloor | common/src/market_specification.rs:38-45 | while product and quotient fit, a cost is the floor of price times size times quote scale over base scale times quote step |
| QuoteMath.CostWraps | common/src/market_specification.rs:38-45 | in every case the cost is that floor with the product cut to 128 bits and the quotient to 64 |
| QuoteMath.CostWithoutScale | common/src/market_specification.rs:41-43 | a market without a base scale or a quote step costs nothing |
| QuoteMath.MarketAssets | common/src/market_specification.rs:135-142 | the base asset is the lower half of a market id and the quote asset the upper |
| QuoteMath.ReservationCovers | processors/src/risk_engine.rs:219-239 | one floored lock covers any sequence of fills and the final release, and leaves at most two units per fill |
| QuoteMath.ReservationExact | common/src/market_specification.rs:36-46 | where base scale times quote step divides the quote scale nothing is left |
| QuoteMath.CutReservationFails | common/src/market_specification.rs:44-44 | once the quotient is cut to 64 bits a lock can be smaller than one of its pieces |
| RiskEngines.BalanceStore.LockFunds | common/src/user_profile.rs:87-105 | locks from available funds or fails without a change, with the 64-bit wrap of a release build |
| RiskEngines.BalanceStore.UnlockFunds | common/src/user_profile.rs:107-125 | frees locked funds or fails without a change, with the 64-bit wrap |
| RiskEngines.BalanceStore.AddFunds | common/src/user_profile.rs:127-140 | adds with an overflow check |
| RiskEngines.BalanceStore.SubtractFunds | common/src/user_profile.rs:142-159 | takes from available funds or fails |
| RiskEngines.BalanceStore.SubtractLockedFunds | common/src/user_profile.rs:161-177 | takes from locked funds or fails |
| RiskEngines.RiskEngine.PreProcessCommand | processors/src/risk_engine.rs:50-143 | for its own users the first stage is the reference on balances, price and status; for others it does nothing |
| RiskEngines.RiskEngine.ReserveFundsForOrder | processors/src/risk_engine.rs:304-364 | reserves quote for a bid and base for an ask, and reports every error; an accepted market buy is priced at the cached best ask plus slippage, rounded down, and any other order keeps its price |
| RiskEngines.RiskEngine.SettleTrade | processors/src/risk_engine.rs:200-283 | refund, debit, fee and credit of one leg, stopping at the first error |
| RiskEngines.RiskEngine.PostProcessCommand | server/src/utils.rs:63-122 | the event walk of one shard settles the legs of its users in order and releases when due |
| RiskLaws.MarketBuy | processors/src/risk_engine.rs:326-360 | a market buy is priced at best ask plus slippage, rounded down, and locks the cost at that price; it is refused exactly when there is no ask, the price leaves the word or funds are short |
| RiskLaws.MarketPriceCut | processors/src/risk_engine.rs:349-353 | in every case the adjustment is rounded down and cut to 64 bits, and a sum that leaves the word is refused |
| RiskLaws.LimitOrSell | processors/src/risk_engine.rs:304-364 | any other order keeps its price and locks its cost in quote or its size in base, or is rejected for want of funds |
| RiskLaws.UnknownMarket | processors/src/risk_engine.rs:65-74 | an order for a market without a specification is rejected and moves nothing |
| RiskLaws.Deposits | processors/src/risk_engine.rs:413-431 | a deposit adds its amount to the asset in the lower half of its market field, or is rejected when it would overflow |
| RiskLaws.Withdrawals | processors/src/risk_engine.rs:435-453 | a withdrawal takes its amount from available funds, or is rejected when they are short |
| RiskLaws.Cancels | processors/src/risk_engine.rs:132-132 | the first stage leaves a cancel and all balances alone |
| RiskLaws.BuyerSettles | processors/src/risk_engine.rs:219-267 | a buyer pays the cost, gets any price improvement back and receives the size less the fee of its role |
| RiskLaws.SellerSettles | processors/src/risk_engine.rs:250-267 | a seller gives the size and receives the cost less the fee of its role |
| RiskLaws.FeeCuts | processors/src/risk_engine.rs:242-256 | in every case a fee is the floor of its basis points with the product cut to 64 bits |
| RiskLaws.CreditCuts | processors/src/risk_engine.rs:243-256 | what is left after a fee wraps where the fee exceeds the amount |
| RiskLaws.SumsWrap | common/src/user_profile.rs:95-117 | locking and unlocking wrap at 64 bits |
| RiskLaws.BuyerStops | processors/src/risk_engine.rs:219-268 | a buyer whose cost is not locked is credited nothing, and keeps what was refunded before |
| RiskLaws.SellerStops | processors/src/risk_engine.rs:250-268 | a seller whose size is not locked is credited nothing |
| RiskLaws.BuyerOverflows | processors/src/risk_engine.rs:267-269 | a buyer's credit that does not fit is refused after the payment is taken |
| RiskLaws.SellerOverflows | processors/src/risk_engine.rs:267-269 | the same for a seller |
| RiskLaws.Releases | processors/src/risk_engine.rs:368-394 | a release frees what the order still holds at its price, and moves nothing else |
| RiskLaws.Refusals | common/src/user_profile.rs:87-177 | a refused posting names what there is and what was asked for, and moves nothing |
| Routers.MatchingEngineRouter.AddMarket | processors/src/matching_engine.rs:40-49 | the market gets a new empty book of its own, the others keep theirs, and all books stay separate |
| Routers.MatchingEngineRouter.ProcessOrder | processors/src/matching_engine.rs:65-90 | only the owner dispatches, to the book of the market, and an unknown market is rejected; the cache changes in that market only and shows its true best prices; the router is ready for the next command |
| Shards.OneOwner | processors/src/risk_engine.rs:45-47 | for every power of two each id belongs to exactly one shard |
| Shards.DistributeMarkets | server/src/engine.rs:229-253 | every market goes to the one router that owns it |
| PipelineShape.BarriersKept | server/src/engine.rs:281-392 | every step keeps the stage barriers between all cursors |
| PipelineShape.LegsKept | server/src/utils.rs:76-104 | a shard stays within the legs of the command it is at, which nobody rewrites meanwhile |
| PipelineSound.StepSound | server/src/engine.rs:281-392 | every step of every stage keeps cursors, command shapes, increasing ids and all books in order |
| CancelPath.CancelTakesOut | processors/src/journaling.rs:31-37 | a published cancel keeps the id it names through every interleaving, and takes exactly that order out of its book if it is indexed and no ask with a bid at its price |
| Claims.LegSucceeds | processors/src/risk_engine.rs:200-283 | a leg whose debit is locked and whose credit has room succeeds and moves exactly its amounts |
| Claims.ReleaseSucceeds | processors/src/risk_engine.rs:368-394 | a release of locked funds succeeds and changes no total |
| Claims.PreProcessLocks | processors/src/risk_engine.rs:304-323 | the first stage locks exactly what the accepted command will claim and changes a total only by deposit or withdrawal |
| ClaimsMatching.SweepClaims | orderbook/src/lib.rs:126-208 | what taker and makers hold pays for all legs of a pass and for what is left of them |
| ClaimsMatching.PlaceClaims | orderbook/src/lib.rs:232-294 | placing creates no claim: legs, release and resting rest are paid by the reservation and the book |
| ClaimsMatching.CancelClaims | orderbook/src/lib.rs:317-339 | a cancel turns the claim of the order into the claim of its release |
| Coverage.SettleSucceeds | server/src/utils.rs:63-122 | in a backed state the leg or release that comes up succeeds: its debit is locked and its credit has room |
| Solvency.StepBacked | server/src/engine.rs:281-392 | every step keeps locked funds at least the outstanding claims, funds conserved up to open legs, and fees non-negative |
| Solvency.ReachableBacked | processors/src/risk_engine.rs:200-394 | in every reachable state of every interleaving locked funds cover all outstanding claims |
| Solvency.NoSettlementFails | processors/src/risk_engine.rs:267-269 | no leg and no release of any run fails |
| Dust.LockedWithin | processors/src/risk_engine.rs:219-239 | in every reachable state locked funds exceed the claims on them by at most one unit for each split of a reservation: two per trade the balance paid for as a taker, one as a maker |
| Dust.LockedExactly | processors/src/risk_engine.rs:219-239 | a balance that paid for no trade, and every balance where the scales of every market divide, has locked exactly what is claimed |
| Imbalance.AvailableRoom | common/src/user_profile.rs:127-140 | what is available and what an open part will still credit never exceed net deposits, so every credit has room |
| AssetTotals.TotalMoves | common/src/user_profile.rs:87-177 | each column of the balances of an asset, added up, moves with the balances that change |
| Imbalance.LegsCancel | processors/src/risk_engine.rs:235-265 | both legs of a trade exchange the same base and quote amounts, so matching creates no funds |
| Conservation.StepConserves | processors/src/risk_engine.rs:235-269 | every step keeps the balance equation, with the open legs as its only difference |
| Solvency.FundsConserved | processors/src/risk_engine.rs:413-453 | with no command half settled, balances plus fees equal deposits less withdrawals, for every asset and interleaving |
| Solvency.AvailableBounded | common/src/user_profile.rs:127-140 | no user ever has more of an asset available than its net deposits |
| GrossDeposits.StepAccounts | common/src/user_profile.rs:87-177 | every step keeps each balance equal to what its user paid in less what was taken out and all legs up to the position of its shard, and keeps every earlier position covered |
| BalanceBound.HoldsWithinDeposits | common/src/user_profile.rs:87-105 | no balance ever holds more of an asset, available and locked, than was deposited of it in all, at whatever pace the shards settle |
| BalanceBound.DepositsSuffice | common/src/user_profile.rs:96-96 | where reservations fit the quote arithmetic and all deposits of each asset fit a machine word, no lock wraps and every bound on amounts holds |
| LockWrap.LockWraps | common/src/user_profile.rs:96-96 | a concrete run whose last lock wraps although net deposits fit a machine word throughout |
| Solvency.BoundaryWhole | server/src/engine.rs:353-381 | when all settlement shards stand in front of one command, none is half settled |
| Draining.EveryRunDrains | server/src/engine.rs:281-392 | every reachable state can be driven to an idle pipeline by enabled steps, and then balances and fees add up to net deposits |
| Imbalance.FeeWithin | processors/src/risk_engine.rs:241-242 | a fee never exceeds the amount, and is the floor of its basis points while the product fits a word |
| Conservation.RolesCharged | processors/src/risk_engine.rs:209-214 | makers pay the maker fee and takers the taker fee, because no event pairs a user with itself |
| ExactlyOnce.BookedExactlyOnce | server/src/utils.rs:75-116 | each leg and each due release is booked once when its owner has passed it and never otherwise, for all power-of-two shard counts |
| ExactlyOnce.MatchedExactlyOnce | server/src/engine.rs:180-191 | each accepted place command is matched once, by the owner of its market and no other router |
| Snowflakes.ParseRecovers | common/src/snowflake.rs:136-141 | parsing an id recovers tick, node and sequence, and ids fit 64 bits |
| Snowflakes.IdLayout | common/src/snowflake.rs:187-189 | shifts and ors lay the three fields side by side |
| Snowflakes.TickIs | common/src/snowflake.rs:144-163 | a tick is 1024 nanoseconds since the epoch, there are 2^48 of them, and earlier or later readings are errors |
| Snowflakes.IdSays | common/src/snowflake.rs:107-131 | an id carries the gateway, the tick of the last reading, and a sequence that counts up within the tick and starts at 0 |
| Snowflakes.WhyNoId | common/src/snowflake.rs:107-131 | a call fails for a gateway above 15, for a clock without a tick, or because the wait failed, with that error |
| Snowflakes.GatewayServed | common/src/snowflake.rs:107-110 | a gateway number of four bits is never refused |
| Snowflakes.PatienceIs | common/src/snowflake.rs:165-184 | a wait that gives up has looked after every batch of polls, and its last look is the first more than 100 microseconds after its start |
| Snowflakes.Snowflake.WaitNextTick | common/src/snowflake.rs:165-184 | the busy wait returns the first error or later tick, or a sequence overflow once the same clock passes 100 microseconds, polling it 64 times between looks at the deadline |
| Snowflakes.Snowflake.Generate | common/src/snowflake.rs:107-131 | one call moves tick and 16-bit sequence as the reference says, also when it fails |
| Snowflakes.IdsIncrease | common/src/snowflake.rs:107-131 | on every clock that never runs back the ids of any run of calls increase strictly, also past errors |
| Snowflakes.GeneratedIdsIncrease | processors/src/journaling.rs:31-37 | the same for a new generator, without any condition on the calls |
| Snowflakes.WaitReturns | common/src/snowflake.rs:165-184 | a wait comes to an end if and only if the clock ever leaves the tick |
| Journaling.JournalingProcessor.JournalCommand | processors/src/journaling.rs:24-41 | the ring slot and the archived command differ from the old one in id and timestamp only: a cancel keeps the id it names, any other command gets the generated one; a replay passes through; without an id nothing is written |
| Journaling.JournaledRun | orderbook/src/lib.rs:72-74 | commands stamped by one generator keep every book in order, so each level's queue increases in id as the binary search needs |
| IdSupply.IdsEnable | processors/src/journaling.rs:31-37 | a run over many markets passes every id guard if and only if the ids it draws increase strictly |
| IdSupply.GeneratorEnables | processors/src/journaling.rs:31-37 | the ids of one new generator enable every journaling step of a run over all markets |
| Codec.WriteBuf.PutBytesAt | order/src/lib.rs:151-154 | writes the bytes at the index and nothing else |
| Codec.WriteBuf.PutU64At | order/src/lib.rs:192-194 | writes a word in little-endian order |
| Codec.EncodeHeader | order/src/order_command_message_codec.rs:59-66 | the first eight bytes become block length, template, schema and version |
| Codec.EncodeOrderCommand | common/src/cmd.rs:370-387 | the writes at their offsets tile the 64-byte message without gap or overlap and leave the rest of the buffer alone |
| Codec.WordLayout | order/src/order_command_message_codec.rs:62-220 | every number stands at its own offset, least significant byte first |
| Codec.ByteLayout | order/src/order_command_message_codec.rs:59-66 | the header bytes and the codes of command, side, time in force and status |
| Codec.DecodeEncoded | common/src/cmd.rs:389-412 | decoding an encoded command gives back every field on the wire |
| Codec.Accepts | common/src/cmd.rs:389-412 | the decoder accepts exactly the blocks whose four enumeration bytes are known |
| Codec.EncodeDecoded | order/src/order_command_message_codec.rs:243-344 | what the decoder accepts is reproduced byte for byte, and with its header exactly when that is the one the encoder writes |
| CoreRuns.FirstStageRepeats | processors/src/risk_engine.rs:326-364 | a command put through the first stage again comes to the same end, also a market buy with its price fixed |
| CoreRuns.ReplayRebuilds | networking/src/server/cmd_handler.rs:79-92 | replaying the decoded journal of any run rebuilds books, cached prices and balances |
| CoreRuns.CacheIsScan | orderbook/src/lib.rs:341-347 | after any run the cached prices are the greatest bid and least ask a scan finds, 0 and u64::MAX when empty |
| CoreRuns.PaddedAskIsScan | processors/src/risk_engine.rs:339-341 | the ask a market buy pads is the least ask of the whole book |
| Sequential.OneCommand | server/src/engine.rs:281-392 | a command that meets an idle pipeline can run through every thread alone, and leaves the books and balances of one core step and an idle pipeline |
| Sequential.CoreIsPipeline | server/src/engine.rs:281-392 | every run of the core one command at a time is an interleaving of the pipeline with the same books and balances |
| Sharding.PreProcessTogether | processors/src/risk_engine.rs:50-143 | the first stage of a shard on its own store comes to the same command and the same balances of its users as on one store for all |
| Sharding.PostProcessTogether | server/src/utils.rs:63-122 | so does the second stage |
| Sharding.StepsDivided | server/src/engine.rs:281-392 | over any run the core with one store per shard keeps books, cached prices and every balance of the core with one store |
| Sharding.ReachableDivided | server/src/engine.rs:281-392 | in every interleaving the shards with stores of their own agree with one store for all on every command, cursor, book and balance |
| CoreRuns.SnapshotsTrue | orderbook/src/lib.rs:440-462 | a place that is processed and a cancel of an indexed order carry away a snapshot, and no other request does; it shows the levels of the book it left, each volume modulo 2^64 and truly if and only if it fits |
| CoreRuns.CancelRestores | processors/src/risk_engine.rs:304-394 | through all three stages a cancel of an accepted order that did not trade restores books, cached prices and balances, if and only if it was a bid or no bid rests at its price |

## Left out

- Aeron, Archive, Kafka, protobuf, the schema registry, the Tokio runtime and the Disruptor itself: foreign libraries; only stage order and barriers remain, as step rules. The ring has no capacity in the model.
- Gateways, handshakes, port and session allocation, configuration loading, logging, core pinning and the test driver: no core logic.
- Event publishing: only the three size subtractions are modelled.
- `maker_balance` and `cmd.balance`: copies of balances for the response, read by no later stage.
- Snapshot timestamps and sequence numbers: wall-clock data that nothing in the core reads.
- `common/src/core_arithmetic.rs`: the settlement path does not use it.
- The clock: its readings are an input, taken to stay below 2^64 nanoseconds, about 584 years, so the cast to a word in `current_tick` is the identity. One clock serves ticks and the deadline, as both read the same monotonic clock in the source.
- A wait is followed for as many poll batches as a call is given: `Waiting` says that it is not over, and is no error. `Snowflakes.WaitReturns` says when some number of batches is enough.
- OrderBooks.OrderCommand.AttachEvent: the walk to the tail of the linked event chain is not modelled, because the events of a command are a sequence.
- The first stage reads the price cache without a barrier: the step takes the reading as an arbitrary number, which covers every timing.
- Order and ring slot as shared objects: `OrderCommand` fixes kind, ids and timestamp after construction, and the journaling stage rewrites ring slots as values instead.
- Determinism across interleavings: not claimed, since the first stage reads balances and prices while earlier commands are in flight.
- Exact equality of locked funds and claims: false for arbitrary scales because of floor dust; `Dust.LockedWithin` gives the bound, and `Dust.LockedExactly` two cases of equality.
- Codec.Decode: the debug assertion on the template id is not modelled, because release builds skip it.
