# Perplex: a verified model

Perplex is an off-chain exchange for perpetual futures. This project models its logic in Dafny and
proves what that logic guarantees: the matching engine and its delta stream, the edge's own
matcher with positions, vaults, liquidation and persistence, the margin arithmetic, the leader
lease of the funding service, the rate limiter, the order form's fill preview and the browser's
live order book.

`dafny verify dfyconfig.toml` checks everything.

## How it is organised

Each stateful component is a class whose methods work as the original's do, with loops and
updates in place. Every method is proved against a function on plain values, and the properties
are proved about those functions.

| files | subject |
|---|---|
| `OrderTypes`, `FlatBook` | value types; the book as one list per side, and the greedy walk |
| `Orderbook` | the two-level book as a class, refining the flat one |
| `BookRuns`, `TimePriority`, `Outcomes` | invariant, arrival order and origin of resting orders over all runs; what a submit or cancel answers |
| `Greedy`, `GreedyOptimal` | shape, totals and optimality of a submit; when rejection leaves traces |
| `DeltaReplay`, `MarketWorker` | the sequenced delta stream and who can follow it |
| `EdgeMatch`, `EdgeConcurrent`, `EdgeTotals` | the edge's two-phase matcher, alone and under interleaving |
| `MatchersAgree` | the two matchers make the same trades |
| `Preview`, `PreviewOwn`, `PublishedBook` | published levels and the order form's preview, without and with own orders |
| `Margin`, `Lots`, `EdgePositions` | three accountings of one position and how they agree |
| `EdgeState`, `Persistence`, `Tables`, `MatchFrame` | edge operations, event log, tables, what a match leaves alone |
| `Restart`, `Reload`, `Reopened`, `TidyRuns` | tables mirror memory, loading them back, which orders are sound, what a restarted edge serves |
| `Reconcile`, `EdgeReplay`, `EdgeOrders`, `EdgeTape`, `EdgeAccounts` | positions, orders, fills, fees, tape, notionals and open interest reconcile |
| `EdgeBook` | the edge's open orders never cross; post-only |
| `Keeper` | liquidation rounds |
| `Lease`, `LeaseHolder` | leader lease: safety, and what keeps a leader in office |
| `RateLimit`, `RateAdmits` | token bucket: upper bounds, and what it lets through |
| `ClientMirror` | live order book |

Prices, quantities and tokens are exact reals. Numbers that the original truncates (prices in
units of 1e-18, money in millionths) are integers obtained by truncation towards zero. Time is an
input. Unique ids come from a counter. Where the original iterates over a hash map, the order of
iteration is a parameter and the results hold for every order.

## Where the code and its comments differ

The model follows the code.

- `CancelBoth` is described as rejecting the taker (crates/perplex-matching/src/book.rs:35); the
  taker goes on without its own orders (book.rs:299-304). See `Greedy.CancelBothSkipsOwn`.
- A fill-or-kill order is meant to fill completely or not at all; under `CancelBoth` it can be
  accepted part-filled. See `Greedy.FokFilledIff` and `Greedy.FokPartFilled`.
- A submit rejected for self-trade or lack of liquidity is not rolled back. See
  `Greedy.RejectionIsCleanIff` and `Greedy.GhostMaker`.
- The delta stream is silent about cancels, about what rejected submits consumed, and about own
  orders withdrawn at a price without a trade. See `DeltaReplay.StepInStep`.
- The key of the funding table admits one sample per market and time, while the history in memory
  keeps all of them (crates/perplex-edge/src/db.rs:310-323). See `Reload.FundingSurvivesIff`.
- The edge validates time in force but ignores it when it rests a remainder
  (crates/perplex-edge/src/handlers.rs:200-202, 411-427).
- The edge refuses a zero quantity with the words that it must be positive
  (crates/perplex-edge/src/handlers.rs:220-222) but does not refuse a negative one. See
  `TidyRuns.NegativeMatch` and `TidyRuns.PlaceNonNegativeIff`. Restart, reconciliation and
  solvency hold for those too.

## Model

| member | source | states |
|---|---|---|
| `Orderbook.Book.Submit` | crates/perplex-matching/src/book.rs:106-174 | The two-level book with its checks, nested crossing loops and resting does exactly one walk down the flattened list of resting orders, rejected submits and what they leave behind included. |
| `Orderbook.Book.Cancel` | crates/perplex-matching/src/book.rs:177-185 | Removing through index, side and level is removing the order from the flat list; false exactly when the id is not indexed. |
| `Orderbook.Book.Check` | crates/perplex-matching/src/book.rs:111-143 | The tests before crossing, in their order, decided on the flat list. |
| `Orderbook.Book.Best` | crates/perplex-matching/src/book.rs:79-85 | The best price is the price of the first resting order, and there is one exactly when the side is not empty. |
| `Orderbook.Book.LevelQuantity` | crates/perplex-matching/src/book.rs:88-103 | The sum over all resting orders of that side and price. |
| `Orderbook.Book.Rest` | crates/perplex-matching/src/book.rs:344-357 | The order goes behind every order of a price at least as good and is indexed. |
| `Orderbook.Book.constructor` | crates/perplex-matching/src/book.rs:59-73 | A new book is empty in both forms. |
| `Orderbook.Cross` | crates/perplex-matching/src/book.rs:218-262 | Level by level crossing, of either side, gives the fills, remainder, index and levels of the flat walk; no level is left empty and prices stay in order. |
| `Orderbook.CrossOneLevel` | crates/perplex-matching/src/book.rs:264-342 | One price level: the loop over the queue, its mutations and the compaction afterwards are the walk over that queue; on a rejection the queue is left uncompacted. |
| `Orderbook.Compact` | crates/perplex-matching/src/book.rs:326-340 | Removing the recorded indices from the back leaves exactly the other entries in order. |
| `Orderbook.CrossableQty` | crates/perplex-matching/src/book.rs:188-214 | Sum of all resting quantity within the price, own orders included. |
| `Orderbook.RestOn` | crates/perplex-matching/src/book.rs:344-357 | Inserting in a new or existing level is insertion in the flat list, and the ladder of levels stays in order. |
| `Orderbook.RemoveFromSide` | crates/perplex-matching/src/book.rs:359-400 | Scanning the levels removes the first order with the id and drops a level that becomes empty. |
| `BookRuns.RunIsGood` | crates/perplex-matching/src/book.rs:106-185 | After every run of submits and cancels with fresh ids, in all modes and rejected submits included: bids below asks, both sides in price order, ids unique, every order on its own side, the index holds exactly the ids with quantity left, and outside CancelNewest nothing rests without quantity. |
| `TimePriority.RunInTime` | crates/perplex-matching/src/book.rs:106-185 | After every run with fresh ids, in all modes and rejected submits included: on both sides, of two orders at one price the one submitted earlier comes first. |
| `TimePriority.FilledInTime` | crates/perplex-matching/src/book.rs:264-324 | And a submit after any run fills, at each price, the earlier submitted maker first. |
| `BookRuns.CrossedKeepsGood` | crates/perplex-matching/src/book.rs:218-342 | Crossing alone, finished or broken off by a rejection, keeps all of that. |
| `BookRuns.CrossedClears` | crates/perplex-matching/src/book.rs:218-262 | A limit order with quantity left after an unrejected crossing meets no crossing order any more, so resting it cannot cross the book. |
| `BookRuns.RestedKeepsGood` | crates/perplex-matching/src/book.rs:344-357 | Resting an order that crosses nothing keeps the invariant. |
| `BookRuns.CancelKeepsGood` | crates/perplex-matching/src/book.rs:177-185 | So does every cancel. |
| `BookRuns.WalkShape` | crates/perplex-matching/src/book.rs:264-342 | What crossing may do to each entry: before the stopping point used up (or an own order withdrawn untouched), at it possibly reduced, behind it unchanged. |
| `Outcomes.RestingIsSubmitted` | crates/perplex-matching/src/book.rs:106-174 | After every run with fresh ids, in all modes and rejected submits included: each resting order is a limit order, good till cancelled, of some submit of the run, with its own owner, side, price and time, and what remains of it is its quantity less all fills of the run that name it. |
| `Outcomes.RestsIff` | crates/perplex-matching/src/book.rs:157-173 | An accepted submit reports a resting id, its own, if and only if it is a good-till-cancelled limit order with quantity left; it is then indexed and stands on its own side with that quantity, and otherwise its side is unchanged. |
| `Outcomes.CheckIff` | crates/perplex-matching/src/book.rs:111-143 | The checks are passed if and only if the quantity is positive, a limit price is positive, a post-only price reaches no order of the other side, a reduce-only order reduces, and a fill-or-kill order finds its quantity among all orders its price reaches. |
| `Outcomes.ErrorIsJustified` | crates/perplex-matching/src/book.rs:106-174 | Every error answered, those after crossing included, is justified by order, flag and the book as the submit met it. |
| `Outcomes.PostOnlyNeverTakes` | crates/perplex-matching/src/book.rs:119-132 | An accepted post-only limit order has no fill and keeps its whole quantity. |
| `Outcomes.CancelExact` | crates/perplex-matching/src/book.rs:177-185 | A cancel succeeds if and only if an order with quantity left has the id, and takes exactly that one out of its side; otherwise nothing changes. |
| `Outcomes.FillsNumbered` | crates/perplex-matching/src/book.rs:306-324 | Over every run the fills are numbered 1, 2, 3 and so on. |
| `Greedy.WalkTakesInOrder` | crates/perplex-matching/src/book.rs:264-324 | In every mode, rejected walks included: fill k is against maker k at its price and within the limit, numbered on (under CancelBoth counting other owners only); every maker but the last is exhausted, and a partly filled one ends the walk with nothing left. |
| `Greedy.PricesWorsen` | crates/perplex-matching/src/book.rs:218-262 | In every mode, along the fills prices only get worse for the taker. |
| `Greedy.CancelBothSkipsOwn` | crates/perplex-matching/src/book.rs:299-304 | Under CancelBoth the fills are those of the book without the taker's own orders. |
| `Greedy.OwnWithdrawnIff` | crates/perplex-matching/src/book.rs:276-304 | Under CancelBoth an own order is withdrawn if and only if it is within the price and the taker still has quantity when it gets there. |
| `Greedy.NoSelfTrade` | crates/perplex-matching/src/book.rs:285-304 | Outside Allow no fill has the same user on both sides. |
| `Greedy.WalkTotal` | crates/perplex-matching/src/book.rs:218-342 | Fills plus remainder is the quantity; an unrejected walk trades the smaller of quantity and tradable supply. |
| `Greedy.ProbeExact` | crates/perplex-matching/src/book.rs:137-143 | An accepted submit outside CancelBoth trades exactly the smaller of its quantity and the probed crossable quantity. |
| `Greedy.FokFilledIff` | crates/perplex-matching/src/book.rs:137-143 | An accepted fill-or-kill order is fully filled if and only if, under CancelBoth, the others' quantity within reach suffices; always in the other modes. |
| `Greedy.FokPartFilled` | crates/perplex-matching/src/book.rs:188-214 | A concrete accepted fill-or-kill order that is half filled, because the probe counts own orders. |
| `Greedy.RejectedIff` | crates/perplex-matching/src/book.rs:285-298 | A walk is rejected if and only if the mode is CancelNewest and the taker reaches an own order with quantity left. |
| `Greedy.AcceptedIff` | crates/perplex-matching/src/book.rs:106-174 | A submit is accepted if and only if it passes the checks, does not reach an own order under CancelNewest, and, for a market order, the tradable quantity suffices; all decided on book and order beforehand. |
| `Greedy.RejectionIsCleanIff` | crates/perplex-matching/src/book.rs:146-155 | A rejected submit leaves the book unchanged if and only if it failed up front, the other side was empty, or the first maker was its own under CancelNewest. |
| `Greedy.GhostMaker` | crates/perplex-matching/src/book.rs:293-298 | A concrete rejected submit after which a used-up maker is still listed, is not indexed, and outlives the cancel of its neighbour. |
| `GreedyOptimal.GreedyIsOptimal` | crates/perplex-matching/src/book.rs:218-342 | For an accepted submit in Allow mode no allocation of the same total over the makers within reach costs a buyer less or earns a seller more. |
| `GreedyOptimal.FrontIsCheapest` | crates/perplex-matching/src/book.rs:218-262 | The exchange argument behind it, for lists sorted by price. |
| `DeltaReplay.StepInStep` | crates/perplex-matching/src/dispatcher.rs:145-207 | In every mode, a subscriber in agreement stays so after a command if and only if a test on book and command holds: an accepted submit whose every withdrawal price also trades, a rejected submit with nothing to take, or a cancel of an unknown id. |
| `DeltaReplay.AcceptedInStep` | crates/perplex-matching/src/dispatcher.rs:151-194 | After an accepted submit the deltas bring every level of both sides up to date if and only if every price at which an own order is reached also has a reached order of somebody else, which can only fail under CancelBoth. |
| `DeltaReplay.RejectedInStep` | crates/perplex-matching/src/dispatcher.rs:195-198 | A rejected submit emits nothing; in every mode it stays in agreement if and only if it failed up front or there was nothing ahead of its own order, or, for a market order, nothing on the other side. |
| `DeltaReplay.CancelOutOfStep` | crates/perplex-matching/src/dispatcher.rs:200-202 | A cancel emits nothing, so a successful one always loses the agreement. |
| `DeltaReplay.ReplayAgrees` | crates/perplex-matching/src/dispatcher.rs:145-207 | Over a whole run of such commands, folding the deltas into an empty map gives the quantity of every level. |
| `DeltaReplay.StreamNumbered` | crates/perplex-matching/src/dispatcher.rs:143-194 | Over every run the deltas are numbered 1, 2, 3 and so on without a gap. |
| `DeltaReplay.EmittedExact` | crates/perplex-matching/src/dispatcher.rs:151-198 | A rejected submit emits nothing; an accepted one emits one delta per fill, with the price filled at and what the submit leaves at it on the maker's side, and one more for its own level exactly if it rests. |
| `DeltaReplay.LevelFlow` | crates/perplex-matching/src/book.rs:264-342 | Price by price, what a walk leaves is what was there minus what was filled and withdrawn there. |
| `MarketWorker.Worker.HandleSubmit` | crates/perplex-matching/src/dispatcher.rs:147-199 | Book, reply, fill log and delta log after one submit. |
| `MarketWorker.Worker.Publish` | crates/perplex-matching/src/dispatcher.rs:152-194 | One fill and one level delta for each trade, then one delta for the level the order rests on; no number is skipped. |
| `MarketWorker.ReportsAll` | crates/perplex-matching/src/dispatcher.rs:151-198 | If no submit of the run is rejected half way, the fills reported are all the fills of the run, in order. |
| `MarketWorker.Serve` | crates/perplex-matching/src/dispatcher.rs:134-211 | A worker that has served any commands holds the book and the stream of the run, satisfies the invariant and time priority, rests only what remains of orders submitted good till cancelled, and its stream replays to its book when every command was in step. |
| `EdgeMatch.CollectCandidates` | crates/perplex-edge/src/state.rs:563-597 | The nested read loops collect exactly the wanted orders of everyone but the taker. |
| `EdgeMatch.CommitMatches` | crates/perplex-edge/src/state.rs:607-640 | The write loop over the candidates: skip what is gone, take the smaller of the two quantities, stop when nothing is left. |
| `EdgeMatch.Probe` | crates/perplex-edge/src/state.rs:500-551 | The read-only probe takes from the candidates in the order they come. |
| `EdgeMatch.SortFacts` | crates/perplex-edge/src/state.rs:598-603 | The candidates are permuted into best price first, oldest first within a price. |
| `EdgeConcurrent.RunKeeps` | crates/perplex-edge/src/state.rs:553-678 | For every interleaving of collects, commits, adds and cancels: per order, starting quantity is remaining plus cancelled plus filled; orders sit unaltered in their owner's list; fills and candidates suit their takers. |
| `EdgeConcurrent.NoOverfill` | crates/perplex-edge/src/state.rs:605-651 | For every order in every reachable world: remaining, cancelled and filled are not negative, sum to its start, and so it is never filled beyond its start. |
| `EdgeConcurrent.TakerWithinRequest` | crates/perplex-edge/src/state.rs:563-642 | No taker gets more than it asked for, and every fill is within its limit, from the right market and side, at the maker's price and never with oneself. |
| `EdgeConcurrent.CommitKeeps` | crates/perplex-edge/src/state.rs:605-651 | One commit with arbitrarily stale candidates moves exactly what it reports. |
| `EdgeTotals.MatchTotals` | crates/perplex-edge/src/state.rs:553-678 | An undisturbed match fills the smaller of request and supply, at the notional of sweeping the candidates in order. |
| `EdgeTotals.ProbeExact` | crates/perplex-edge/src/state.rs:500-551 | Probe and match come to the same total, whatever order either visits the users in. |
| `MatchersAgree.MatchIsWalk` | crates/perplex-edge/src/state.rs:553-678 | The edge matches exactly as the matching engine walks: same makers, prices, quantities and remainder on the price-time ordered book of the same orders. |
| `MatchersAgree.EdgeIsOptimal` | crates/perplex-edge/src/state.rs:598-640 | No allocation of the matched quantity over the eligible orders costs a buyer less or earns a seller more. |
| `MatchersAgree.MatchInPriceTime` | crates/perplex-edge/src/state.rs:598-640 | Of any two fills of one match the earlier takes whole an order at a better price, or at the same price one that is not younger. |
| `Preview.RebuildOrderbook` | crates/perplex-edge/src/state.rs:417-458 | The published snapshot of both sides, orders summed per price. |
| `Preview.PreviewFill` | web/components/trade/OrderForm.tsx:612-693 | The preview loop: quantity, remainder, average price, whether it would cross, the price of the last level touched, and the fallback price when nothing fills. |
| `Preview.PreviewAgrees` | web/components/trade/OrderForm.tsx:612-693 | On the published levels the preview announces exactly the quantity and the notional that matching the individual orders gives, for market and limit takers without own resting orders. |
| `PreviewOwn.PreviewRightIff` | web/components/trade/OrderForm.tsx:612-693 | For any taker, own resting orders or not: quantity and notional are those of the match if and only if, for each own order within the limit, others offer the whole quantity at its price or better. |
| `PreviewOwn.PreviewQtyIff` | web/components/trade/OrderForm.tsx:612-693 | The quantity alone is right if and only if the taker has nothing within the limit or others offer enough. |
| `PreviewOwn.AddedImproves` | crates/perplex-edge/src/state.rs:417-440 | One more order leaves a sweep unchanged if there is enough at its price or better, and strictly improves it otherwise. |
| `Preview.AddAllPermutes` | crates/perplex-edge/src/state.rs:417-440 | The published levels do not depend on the order in which users and orders are visited. |
| `Preview.MergeSort` | crates/perplex-edge/src/state.rs:417-458 | Summing orders into levels is sorting them and joining equal prices. |
| `Preview.TakeWithinAddAll` | web/components/trade/OrderForm.tsx:655-662 | Cutting the levels at the limit is filtering the orders by it. |
| `PublishedBook.PublishedExact` | crates/perplex-edge/src/state.rs:417-458 | Each side of the published book is in strict order of price, lists a price if and only if an order of a visited account rests there, and shows at it the sum of what remains of those orders. |
| `Margin.PositionCell.Fill` | crates/perplex-core/src/margin.rs:15-49 | The in-place update takes the branches of the function, close before add before flip before reduce. |
| `Margin.FillIdentity` | crates/perplex-core/src/margin.rs:15-57 | In every branch realised plus unrealised profit moves by what the fill is worth at the mark. |
| `Margin.PnlIdentity` | crates/perplex-core/src/margin.rs:15-57 | For every history and every mark, realised plus unrealised equals the sum of delta times (mark minus price), and the size is the net of the deltas. |
| `Margin.ZeroSum` | crates/perplex-core/src/margin.rs:15-57 | Booking every match to both sides keeps the sums of sizes and of profits over all users at zero. |
| `Margin.AddingLaw` | crates/perplex-core/src/margin.rs:28-34 | Adding to a position realises nothing, and the new entry price lies between the old one and the fill price. |
| `Margin.ClosingLaws` | crates/perplex-core/src/margin.rs:19-48 | Opening enters at the fill price and realises nothing; closing leaves a flat position; reducing keeps the entry and realises the part closed; flipping realises the whole position and enters at the fill price. |
| `Margin.HealthExact` | crates/perplex-core/src/margin.rs:76-90 | Health times maintenance margin (size at mark times basis points) is collateral plus unrealised profit; there is no health exactly when that margin is zero. |
| `Margin.LiquidationThreshold` | crates/perplex-core/src/margin.rs:69-118 | For every maintenance ratio: health is below one if and only if the mark is beyond the liquidation price, on which side for longs and shorts, when there is no price at all, and the same after negative prices are shown as zero. |
| `Margin.ThresholdIff` | crates/perplex-core/src/margin.rs:69-118 | Long below, short above its liquidation price is the whole truth at every mark if and only if the position is short or the ratio is below one. |
| `Margin.PlayOut` | crates/perplex-core/src/margin.rs:15-57 | The object fed any fills one after another satisfies the profit identity at every mark. |
| `Margin.NoMaintenance` | crates/perplex-core/src/margin.rs:76-90 | Without a maintenance margin nothing is liquidatable. |
| `Margin.ThresholdFailsAboveOne` | crates/perplex-core/src/margin.rs:93-118 | A long at a ratio of two, in numbers. |
| `Lots.Simulator.ApplyFill` | scripts/lib/sim/counterparty.ts:123-149 | The loop over the lots closes opposite lots from the front and opens one with the rest. |
| `Lots.Simulator.OnFill` | scripts/lib/sim/counterparty.ts:80-91 | Lots, realised profit and inventory after a filled quote. |
| `Lots.FirstInFirstOut` | scripts/lib/sim/counterparty.ts:123-149 | A fill closes opposite lots from the oldest on, leaving the younger ones as they were, and, if it drops nothing, realises each at its own price; on its own side it adds the youngest lot and realises nothing. |
| `Lots.AccountingsAgree` | scripts/lib/sim/counterparty.ts:123-149 | FIFO and average cost agree: one-sided lots summing to the position, equal equity at every mark, equal realised profit whenever flat. |
| `Lots.Simulate` | scripts/lib/sim/counterparty.ts:45-118 | The simulator object, fed any quotes that drop nothing: inventory is the sum of the lots and equity that of the margin engine at every mark. |
| `Lots.EqualSizes` | scripts/lib/sim/counterparty.ts:80-91 | Fills of one size, as the simulator makes them, never leave a remainder that is dropped, so the agreement applies. |
| `Lots.SumFollowsIff` | scripts/lib/sim/counterparty.ts:136-142 | For fills of any size the lots follow the inventory if and only if no remainder at or below 1e-12 is dropped. |
| `EdgePositions.EdgeFollowsCore` | crates/perplex-edge/src/state.rs:703-785 | For any fills in any markets: at most one position per market, sizes positive, side and size those of the margin engine, entry price within one unit of 1e-18 per fill and never above if prices are not negative. |
| `EdgePositions.MoveMatches` | crates/perplex-edge/src/state.rs:742-785 | The same for one fill, branch by branch. |
| `EdgePositions.EntryIsRounded` | crates/perplex-edge/src/state.rs:27-30 | The loss is real: a concrete average that is stored too low. |
| `EdgeState.AppState.ApplyPositionFill` | crates/perplex-edge/src/state.rs:703-785 | Only the one address changes, to its list with the position opened, added to, reduced, removed or flipped. |
| `EdgeState.AppState.CrossTaker` | crates/perplex-edge/src/state.rs:553-678 | Orders and fills of the match, and one sync event per distinct maker in order of first appearance. |
| `EdgeState.AppState.Place` | crates/perplex-edge/src/handlers.rs:186-447 | The whole new state and log: match, settle every fill on both sides, then rest a limit remainder whatever the time in force. |
| `EdgeState.AppState.SettleOne` | crates/perplex-edge/src/handlers.rs:345-407 | Two fills, fee and rebate, tape, both positions. |
| `EdgeState.AppState.MoveVault` | crates/perplex-edge/src/handlers.rs:27-46 | A vault moves by the truncated delta and stops at zero. |
| `EdgeState.AppState.Cancel` | crates/perplex-edge/src/state.rs:387-410 | The order leaves its owner's list and a delete is logged if and only if it was there. |
| `EdgeState.AppState.Rest` | crates/perplex-edge/src/state.rs:372-385 | The order joins its owner's list and an upsert is logged. |
| `EdgeState.AppState.Liquidate` | crates/perplex-edge/src/state.rs:1085-1163 | Closes exactly when the position is there, can be priced and has health below one; vault, positions, fill and trade afterwards. |
| `EdgeState.AppState.SeedDevVault` | crates/perplex-edge/src/state.rs:165-178 | If opted in, an address without a vault gets the development balance, once; otherwise nothing happens. |
| `EdgeState.AppState.AppendFunding` | crates/perplex-edge/src/state.rs:978-990 | The sample joins its market's history and is logged. |
| `EdgeState.AppState.FromSnapshot` | crates/perplex-edge/src/state.rs:113-151 | A new state holds exactly what was loaded. |
| `EdgeOrders.RestsAtEdge` | crates/perplex-edge/src/handlers.rs:411-427 | A request that is not matched changes no open order. One that is matched leaves, behind what the match left, exactly its unfilled limit quantity at the end of its own user's list, with the request's market, side, price, quantity and time; without a limit or with nothing left, nothing more. |
| `EdgeOrders.OrdersReconcile` | crates/perplex-edge/src/handlers.rs:345-427 | In every state of every life, restarts included: each open order is an admitted limit request of its owner with that request's market, side, price, quantity and time, and remains the quantity asked for less all fills recorded under its id. |
| `EdgeOrders.SettleRecords` | crates/perplex-edge/src/handlers.rs:345-403 | One match records a taker fill under the request's id and a maker fill under the matched order's id on the opposite side, both at the maker's price and with fee and rebate as truncated notional times basis points, and one line on the tape of that market. |
| `EdgeOrders.CloseRecords` | crates/perplex-edge/src/state.rs:1122-1153 | A forced close records a fill without an order and a tape line, both at mark, for the whole size, on the closing side, the fill free of charge. |
| `EdgeTape.TapeTellsFills` | crates/perplex-edge/src/handlers.rs:345-403 | Over every run the tape is, line by line and in order, the taker and liquidation fills, and the maker fills are in order the takers' on the opposite side: same market, price, quantity and time. |
| `EdgeBook.EdgeNeverCrossed` | crates/perplex-edge/src/state.rs:553-651 | In every state of every life of sound requests that look at every account: no priced bid of one account is at or above a priced ask of another in the same market. |
| `EdgeBook.PostOnlyAtEdge` | crates/perplex-edge/src/handlers.rs:292-310 | A post-only request for a positive quantity is turned away, with nothing but an id used, if and only if some visited account has an order it could trade with; otherwise it trades nothing and, with a limit, rests whole. |
| `EdgeBook.NoneLeft` | crates/perplex-edge/src/state.rs:607-651 | After a match that is not filled, no visited account has an order left within its market, side and limit. |
| `EdgeAccounts.NotionalsFollow` | crates/perplex-edge/src/state.rs:703-785 | In every state of every life the notional stored with a position is its size at its stored entry price, off by less than one unit of either. |
| `EdgeAccounts.FundingIsRecorded` | crates/perplex-edge/src/state.rs:978-990 | Over every run a market's funding history grows by exactly the samples recorded for it, in order. |
| `EdgeAccounts.SeedsOnce` | crates/perplex-edge/src/state.rs:165-178 | Seeding gives an account without a vault 100 000 dollars if opted in, changes no other balance, and does nothing the second time. |
| `EdgeAccounts.CancelsOne` | crates/perplex-edge/src/state.rs:387-410 | A cancel takes exactly the one order of that id out of its user's list and logs its deletion; otherwise nothing changes. |
| `Persistence.Db.Write` | crates/perplex-edge/src/db.rs:206-326 | The effect of each event on the tables, conflicts included. |
| `Persistence.Db.SyncOrderRows` | crates/perplex-edge/src/db.rs:217-240 | Delete and insert one by one; a conflict leaves the table as it was. |
| `Persistence.Db.SyncPositionRows` | crates/perplex-edge/src/db.rs:258-286 | The same for positions. |
| `Persistence.Db.Drain` | crates/perplex-edge/src/db.rs:351-360 | Events are applied in the order they were emitted, to tables that may already hold something. |
| `Persistence.Db.LoadSnapshot` | crates/perplex-edge/src/db.rs:84-202 | Every row once, unordered tables in any order, fills and trades as inserted, funding samples by time; grouped by address or market. |
| `Tables.ApplyTwice` | crates/perplex-edge/src/db.rs:203-326 | Delivering any event a second time changes nothing. |
| `Tables.SyncAllOrNothing` | crates/perplex-edge/src/db.rs:217-240 | A sync leaves other addresses' rows alone and gives the address exactly the new rows, or, if a key belongs to another address, changes nothing. |
| `Tables.UpsertExact` | crates/perplex-edge/src/db.rs:329-346 | An upsert of a known order id changes its remaining quantity only; a new id is stored as it is; no other row changes. |
| `Tables.RowsStayUnique` | crates/perplex-edge/src/db.rs:242-309 | Whatever events arrive, fills and trades have unique ids and those already stored stay in place and order. |
| `MatchFrame.MatchChanges` | crates/perplex-edge/src/state.rs:605-651 | A match changes only the lists of makers it filled; every order left is one of the old ones with all other fields kept and, for a quantity that is not negative, no more remaining than before, and none is left with nothing. |
| `Restart.RunInStep` | crates/perplex-edge/src/state.rs:351-410 | From any edge mirrored by its tables, over every run, the tables brought forward by the log hold exactly the state in memory; rests on every resting order having something left. |
| `Restart.MatchInStep` | crates/perplex-edge/src/state.rs:653-676 | Syncing only the filled makers suffices, and no sync can conflict. |
| `Reload.RestartEquivalence` | crates/perplex-edge/src/db.rs:84-326 | At every restart of every life of sessions and for every order of rows, loading gives the same vaults, fill histories and tape, per address the same multisets of orders and positions, and of the funding samples the last at each time. |
| `Reload.ReachedInStep` | crates/perplex-edge/src/state.rs:113-127 | Every state of a life, in the middle of a session too, is mirrored by its tables and holds one position per account and market. |
| `Reload.FirstRestart` | crates/perplex-edge/src/db.rs:84-326 | In particular for every run from an empty state. |
| `Reload.ReloadInStep` | crates/perplex-edge/src/state.rs:113-127 | The reopened edge is again mirrored by its tables, with nothing on the log. |
| `Reload.FundingSurvivesIff` | crates/perplex-edge/src/db.rs:188-202 | A market's funding history comes back unchanged if and only if its sample times were strictly increasing. |
| `Reload.FundingIsLost` | crates/perplex-edge/src/db.rs:310-323 | Two samples at one time, of which only the second comes back. |
| `Reload.ServeAndRestart` | crates/perplex-edge/src/db.rs:351-360 | State object, writer, tables and loader together: serve any operations, drain, load, start anew; the new object restores the old and is in step for the next session. |
| `Reload.Live` | crates/perplex-edge/src/db.rs:351-360 | Any number of such sessions from empty tables. |
| `Reopened.PermutedServesSame` | crates/perplex-edge/src/state.rs:417-458 | Permuted lists publish the same book and give every taker the same quantity at the same notional. |
| `TidyRuns.RestartServesSame` | crates/perplex-edge/src/state.rs:113-127 | So at every restart of every life of sound orders the published book and what any taker gets are unchanged. |
| `TidyRuns.NegativeMatch` | crates/perplex-edge/src/state.rs:607-640 | A negative quantity is booked whole against the best candidate, or not at all without one. |
| `TidyRuns.PlaceNonNegativeIff` | crates/perplex-edge/src/handlers.rs:216-222 | All resting quantities stay at least zero if and only if the order is not a limit order for a negative quantity without a candidate; the post-only probe does not stop it. |
| `TidyRuns.DoTidyIff` | crates/perplex-edge/src/handlers.rs:411-427 | From a tidy state any operation leads to a tidy one if and only if it is sound in that sense. |
| `TidyRuns.RunTidy` | crates/perplex-edge/src/handlers.rs:411-427 | Runs of sound operations never leave a negative remainder or a repeated id, from any tidy start. |
| `TidyRuns.LifeTidy` | crates/perplex-edge/src/state.rs:113-127 | Nor do lives with any number of restarts. |
| `TidyRuns.PositiveIsSound` | crates/perplex-edge/src/handlers.rs:411-427 | Orders for quantities that are not negative are always sound. |
| `Reconcile.PositionsReconcile` | crates/perplex-edge/src/handlers.rs:345-407 | In every state of every life, for every account and market, the position held is the net of the fills recorded for the account, liquidations included. |
| `Reconcile.OpenInterest` | crates/perplex-edge/src/state.rs:1114-1120 | In every state of every life and every market, over any list of all accounts, matched fills net to zero and the positions held sum to the net of the liquidations, which have no counterparty. |
| `Reconcile.MatchedNetToZero` | crates/perplex-edge/src/handlers.rs:345-407 | In every market the matched fills on the log of a run net to zero. |
| `Reconcile.SettleBooks` | crates/perplex-edge/src/handlers.rs:345-407 | One match moves taker and maker by opposite amounts, alike in positions and in fills, and nobody else. |
| `Reconcile.HeldMoves` | crates/perplex-edge/src/state.rs:703-785 | Opening, adding, reducing, closing and flipping all move the signed size by exactly the fill, for any quantities. |
| `EdgeReplay.PositionsReplay` | crates/perplex-edge/src/handlers.rs:345-407 | In every state of every life, restarts and liquidations included, for every account and market: the stored position, its entry price and notional included, is what replaying the account's recorded fills gives. |
| `EdgeReplay.PositionsFollowCore` | crates/perplex-edge/src/state.rs:703-785 | And so, where the recorded quantities are positive, it is the margin engine's position for those fills: same side and size, the entry price off by at most one unit of 1e-18 per fill. |
| `Reconcile.FeesAsRecorded` | crates/perplex-edge/src/handlers.rs:351-392 | What a match takes from or adds to the two vaults is the fee that the two fills record, down to zero. |
| `Keeper.ScanLiquidatable` | crates/perplex-edge/src/state.rs:1054-1077 | The scan over all accounts. |
| `Keeper.Tick` | crates/perplex-liquidator/src/main.rs:80-133 | One polling round: scan, then one close per target. |
| `Keeper.ScanFinds` | crates/perplex-edge/src/state.rs:1054-1077 | The scan lists exactly the positions with health below one. |
| `Keeper.UnderwaterIff` | crates/perplex-edge/src/state.rs:1004-1049 | A position is under water if and only if it has a size and a priced market and the margin engine would liquidate its signed size at the stored entry price with the whole vault, in dollars, as collateral. |
| `Keeper.ShortfallIff` | crates/perplex-edge/src/state.rs:1041-1049 | In money: if and only if vault plus profit at mark is less than size at mark times the maintenance ratio. |
| `Keeper.BeyondPriceIff` | crates/perplex-edge/src/state.rs:1041-1049 | In prices: if and only if the mark is below a long's, or above a short's, liquidation price computed from position and vault. |
| `Keeper.LiquidateRemoves` | crates/perplex-edge/src/state.rs:1085-1126 | A close removes at most the one named position, and only if it is under water at that moment. |
| `Keeper.KeeperFinishes` | crates/perplex-liquidator/src/main.rs:80-133 | At frozen prices, after as many rounds as there are open positions nothing is left to liquidate, whatever order the accounts come in. |
| `Keeper.KeeperFinishesAnywhere` | crates/perplex-edge/src/state.rs:1041-1163 | The same from every state of every life, restarts included. |
| `Keeper.Work` | crates/perplex-liquidator/src/main.rs:80-133 | The loop on the edge's own object ends with an empty scan within as many rounds as there were open positions. |
| `Keeper.ClosedUnderwater` | crates/perplex-edge/src/state.rs:1085-1092 | Every position closed along the way was under water in the state just before. |
| `Keeper.CloseIsFill` | crates/perplex-edge/src/state.rs:1101-1105 | A forced close realises what the margin engine realises on a fill of the whole position. |
| `Keeper.VaultAfterClose` | crates/perplex-edge/src/state.rs:1105-1115 | The vault is collateral plus profit, or zero if that is negative, to within a millionth. |
| `Keeper.RunSolvent` | crates/perplex-edge/src/handlers.rs:27-46 | No run of orders, cancels, liquidations and vault changes overdraws a vault. |
| `Keeper.LifeSolvent` | crates/perplex-edge/src/handlers.rs:27-46 | Nor does a life with any number of restarts. |
| `Lease.MockBackend.Acquire` | crates/perplex-funding/src/leader.rs:53-67 | Set if absent, after dropping expired entries. |
| `Lease.MockBackend.Extend` | crates/perplex-funding/src/leader.rs:69-80 | Only the live owner extends. |
| `Lease.MockBackend.Drop` | crates/perplex-funding/src/leader.rs:82-88 | Only the owner removes. |
| `LeaseHolder.RenewExact` | crates/perplex-funding/src/leader.rs:69-80 | A renewal succeeds if and only if the caller owns the lease and it has not run out; then the expiry becomes the lease time from now. Refused, it leaves a live lease to its owner; other live leases are untouched. |
| `LeaseHolder.AcquireExact` | crates/perplex-funding/src/leader.rs:53-67 | An acquisition succeeds if and only if nobody holds a live lease, and then runs for the lease time; a live one is left as it was. |
| `LeaseHolder.ReleaseExact` | crates/perplex-funding/src/leader.rs:82-88 | The owner's release removes the lease; anybody else's, and all other keys, change nothing. |
| `LeaseHolder.LeaderStays` | crates/perplex-funding/src/service.rs:89-141 | In any run, from a granted request on, for as long as an instance's calls get through and it asks again within the lease time: it holds the lease until the lease time after its last request, and every grant is its own, whatever the others do. |
| `LeaseHolder.EveryTickGranted` | crates/perplex-funding/src/service.rs:97-112 | On the way each of its ticks renews, is granted and leads, each refresh is answered yes, and nobody else is granted anything. |
| `LeaseHolder.TakenOverIff` | crates/perplex-funding/src/service.rs:97-112 | An idle instance's tick is granted the lease if and only if nobody holds a live one. |
| `LeaseHolder.RefusedDoesNotLead` | crates/perplex-funding/src/service.rs:97-140 | An instance that is refused or does not hear the answer does not lead: after a renewal it tries to acquire, after anything else it no longer takes itself for the holder. |
| `Lease.NextKeeps` | crates/perplex-funding/src/service.rs:89-141 | Every step of every instance, with lost requests and late or lost replies, keeps: each grant is covered by the stored lease for its term, and what instances believe rests on grants. |
| `Lease.Cluster.Perform` | crates/perplex-funding/src/service.rs:89-141 | The arms of the loop on a shared backend, one await at a time, calls and replies apart. |
| `Lease.Operate` | crates/perplex-funding/src/service.rs:81-141 | Instances on any schedule around one backend are granted the lease at least its term apart. |
| `Lease.LeaseSafety` | crates/perplex-funding/src/service.rs:89-141 | Grants to lead to different instances are at least the lease term apart. |
| `Lease.DecisionsApart` | crates/perplex-funding/src/service.rs:97-112 | Decisions are made when the reply arrives: those of different instances are at least the term less the longest delay of a reply apart. |
| `Lease.BurstsDisjoint` | crates/perplex-funding/src/service.rs:113-128 | If submissions fall within the term of their grant, bursts of different instances never overlap. |
| `Lease.BurstAloneIff` | crates/perplex-funding/src/service.rs:97-128 | Another instance can come to lead beside a burst if and only if the term counted from its grant is over. |
| `Lease.LateReplyOverlaps` | crates/perplex-funding/src/service.rs:97-128 | Counting the term from the decision is not enough: a run in which a late reply makes two bursts overlap. |
| `Lease.ReleaseSafeIff` | crates/perplex-funding/src/leader.rs:82-88 | A release followed by a tick of another instance keeps the spacing if and only if the releaser was not the owner or was granted nothing within the lease term. |
| `Lease.ReleaseBreaksSpacing` | crates/perplex-funding/src/leader.rs:82-88 | There is a run of two instances with a release in which two grants fall at one time. |
| `RateLimit.InMemoryBucket.CheckKey` | crates/perplex-edge/src/ratelimit.rs:168-194 | One check rewrites the entry of its key only. |
| `RateLimit.RateBound` | crates/perplex-edge/src/ratelimit.rs:168-194 | Any window of checks on one key with nondecreasing times admits at most capacity plus refill times elapsed seconds. |
| `RateLimit.ForwardBound` | crates/perplex-edge/src/ratelimit.rs:177-180 | For any clock, at most capacity plus what its forward steps refill. |
| `RateLimit.CheckAll` | crates/perplex-edge/src/ratelimit.rs:168-194 | The object itself keeps that bound and touches no other key. |
| `RateLimit.ClockMustNotStepBack` | crates/perplex-edge/src/ratelimit.rs:177-180 | With a clock that steps back, first and last reading do not bound what is admitted; concrete times. |
| `RateLimit.RetryWorksIff` | crates/perplex-edge/src/ratelimit.rs:186-192 | A check made as late as told after a denial, or later, is allowed if and only if capacity and refill are not zero. |
| `RateAdmits.DeniedIsFree` | crates/perplex-edge/src/ratelimit.rs:177-192 | A denied check costs nothing: at any later time bucket and answer are those without it. |
| `RateAdmits.PollingIsFree` | crates/perplex-edge/src/ratelimit.rs:168-194 | However often a client checks, it is let through as if it had made only the checks that succeed, with the same bucket and answer at any later time. |
| `RateAdmits.TokensBalance` | crates/perplex-edge/src/ratelimit.rs:177-192 | Over every run, for any clock: checks let through, tokens at the end and overflow at the rim sum to tokens at the start and refill. |
| `RateAdmits.FrequentGetsAll` | crates/perplex-edge/src/ratelimit.rs:168-194 | The lower bound: a client out of tokens whose gaps earn at most one token each gets every whole token refilled, no more and no fewer. |
| `RateAdmits.RemainingExact` | crates/perplex-edge/src/ratelimit.rs:181-185 | Of any number of further checks at the same instant exactly the announced number remaining is let through. |
| `RateAdmits.FreshAdmits` | crates/perplex-edge/src/ratelimit.rs:174-176 | A new key admits exactly its capacity at once. |
| `RateAdmits.RetryIsShortest` | crates/perplex-edge/src/ratelimit.rs:186-192 | The announced wait is the shortest in whole seconds: after any smaller number the check is still denied. |
| `RateAdmits.NeverRefilled` | crates/perplex-edge/src/ratelimit.rs:186-192 | Without refill the wait is the largest 32-bit number and every later check is denied. |
| `RateLimit.ExpiryUnobservable` | crates/perplex-edge/src/ratelimit.rs:89-126 | With capacity at most sixty times the refill, the expiring form answers every run as the local one does. |
| `RateLimit.ExpiryObservable` | crates/perplex-edge/src/ratelimit.rs:124-125 | Otherwise a run exists on which they differ. |
| `ClientMirror.LiveOrderbook.OnMessage` | web/lib/ws/channels.ts:81-118 | Maps, sequence and resubscription after any message. |
| `ClientMirror.DeltaGivesNext` | web/lib/ws/channels.ts:25-30 | A delta that describes the change from one book to the next turns the one into the other. |
| `ClientMirror.ReceiveKeepsSyncIff` | web/lib/ws/channels.ts:81-118 | A message keeps a mirror in sync if and only if it is not a delta taken at sequence zero that does not lead on from there. |
| `ClientMirror.SafeAtZeroIff` | web/lib/ws/channels.ts:88-97 | At sequence zero a delta is safe whatever the history if and only if it is number one. |
| `ClientMirror.OutOfTurnMayFail` | web/lib/ws/channels.ts:88-97 | For every other delta there is a history that starts at the mirror's book and contains it, after which the mirror is wrong. |
| `ClientMirror.MirrorStaysInSync` | web/lib/ws/channels.ts:81-118 | From any mirror in sync, at sequence zero too, any messages in any order, lost or repeated, keep it in sync as long as none is taken out of turn at zero. |
| `ClientMirror.DeltaAdvances` | web/lib/ws/channels.ts:91-101 | The delta next in turn moves a mirror in sync to the server's next book and sequence. |
| `ClientMirror.CatchesUp` | web/lib/ws/channels.ts:81-118 | A mirror in sync that receives every delta up to n in order, with any repeated or early ones in between, ends at number n with the server's book, provided none is taken out of turn at sequence zero. |
| `ClientMirror.FreshClientInSync` | web/lib/ws/channels.ts:44-50 | In particular a client that has just connected to a market without history. |
| `ClientMirror.Follow` | web/lib/ws/channels.ts:81-118 | The object, fed such messages. |
| `ClientMirror.MirrorInSync` | web/lib/ws/channels.ts:81-118 | Once a nonzero full-depth snapshot is in, and later ones are nonzero, nothing can be out of turn and the mirror shows the server's book at the recorded sequence. |
| `ClientMirror.ZeroSnapshotIsNotEnough` | web/lib/ws/channels.ts:93-97 | After a snapshot numbered zero a late delta is taken and the mirror is wrong; concrete messages. |

## Left out

- Decimal arithmetic: 28-digit rounding and overflow; reals are exact, only explicit truncation is modelled.
- Parsing and printing of numbers, and the fallbacks for text that does not parse.
- Request validation, signatures, sessions and the margin gate of an order: one boolean input.
- The reduce-only question to the position tracker: a boolean input.
- The market field of the matching engine: a book serves one market.
- `cross_buy` and `cross_sell`: one method for either side; the price maps are sequences of levels in price order.
- Failing appends to the fill and delta streams, and the `Top` query of the worker.
- Client order ids, and position fields that are constant or only copied (mark, leverage, paid funding, time of update).
- One clock reading serves all timestamps of one order placement.
- Times of funding samples from 2^63 on, which the table stores as negative numbers.
- Concurrent agreement of published snapshots and of event order; both are stated for one operation at a time.
- Publishing after each change: the snapshot is modelled as a function of the orders, its sequence counter is not.
- Truncated snapshots: preview and live book are stated for full depth.
- Failing requests of the keeper, and prices that move between rounds.
- The periods of the funding service's timers and the content of its submissions: its loop is a step system in which any wait may happen.
- The real Redis and Postgres clients: only set-if-absent with expiry, and keyed tables.
- Quote strategy, volatility window and kill switch of the simulator.
- HTTP, WebSocket transport, OpenAPI, SDK, sign-in, EIP-712, user interface, contracts, deployment.
