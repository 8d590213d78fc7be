# A model of the CME market maker's core

This project models the parts of the C++ market maker whose behaviour is hardest
to read off the code, and proves what they keep.

- **The quoting protocol.** `Pipeline` drains the broker, books the fills, asks
  the risk monitor, decides, reconciles and pumps. Each side's order is a machine
  of five states (PendingNew, Working, PendingReplace, PendingCancel, Unknown)
  facing an event log that is read later than it is written, and every message
  goes through a coalescing priority queue and a token bucket. `Throttle`,
  `SimulatedExchange`, `QuoteManagement`, `QuotingEngine`, `Inventory`, `Risk`
  and `Pipeline` hold the objects, each a class with the source's fields whose
  methods are proved equal to a function on the state. `Coherence` and
  `SessionCoherence` prove that the manager's slots, with the undrained log
  replayed, are exactly what rests on the exchange; `PositionCap`,
  `MessageBound` and `HaltSafety` prove the position cap, the message bound and
  the safety of a halt over whole runs; `FlattenRoom` and `OverFlatten` say
  exactly when the cap holds beside a live flatten order; `QueuePosition` compares two runs, from
  the front and from the back of the queue. `Ibkr` and `FillConservation` take
  the live broker's callbacks as atomic steps interleaved with drains and prove
  that no fill is lost or booked twice.
- **The order book.** `OrderBooks` holds the two sorted vectors and their binary
  search, `BookBuilders` the map of orders. The vectors are proved to list the
  sums over the held orders after every stream.
- **The signals.** `Vpins` fills buckets by volume, `ToxicityGates` ranks each
  reading in a sliding sorted window and moves between levels with hysteresis,
  `Markouts` and `EdgeProbes` stamp rows as horizons elapse.
- **Two codecs.** `Bid64`, `Bid64Words` and `Bid64Text` are the 64-bit decimal format of
  IEEE 754-2008, section 3.5.2, in bits and in text. `JsonWriter`, `JsonParser`
  and `JsonRoundTrip` are the streaming writer and the recursive-descent parser.
- **The rules.** What each main operation computes is said a second time, without
  the model's own functions, in prices, sizes, times, characters and the history
  alone, and proved of the model: `QuoteRules` (when a quote is replaced,
  cancelled, given up on), `QueueTrades` (how trades and books fill an order in a
  queue), `QuotePrices` (where the quotes are), `FlattenRules`, `BudgetRules`,
  `AccountRules`, `BrokerStory` (what the live broker says, and the position,
  from its history of calls), `HeldOrders` (which orders are held, from the
  records), `BucketRules`, `GateRules`, `Bid64TextRules` (what a numeral is
  read as) and `JsonRules`, over `JsonTokens` and `JsonTurns` (the grammar of what is
  accepted, both ways); `Numerals` has the layout of a decimal that both
  parsers read.

Sizes and identifiers are unbounded integers, prices of the book are integers,
and the other doubles are reals. The closures that the manager queues are a
datatype of commands. Market records, broker callbacks, configuration and the
clock are arbitrary inputs; where a result needs times that do not go back, it
says so.

## What turned out not to hold

Seven laws fail on some inputs. Each has the failing inputs and the condition
under which the code meets it.

- The slots and the exchange can part. When a reconcile gives up on a replaced
  order whose last fill is still in the log, the timeout discards the new size,
  and the fill then falls short of the old one (`LostFill.TimeoutCanLoseAFill`).
  One reconcile keeps the agreement if and only if this does not happen
  (`Coherence.ReconcileAgreesIff`), and a pipeline over the simulated exchange
  never lets it happen, because it drains before it reconciles
  (`SessionCoherence.NoTimeoutInAnyRun`).
- The position with what rests can pass the cap when quoting resumes while the
  order that flattens outside hours is still live; that order is not withdrawn,
  and the engine does not count it. `OverFlatten.QuotesCanPassTheCap` gives a run
  with settings the loader accepts. A run keeps the cap at every message if and
  only if each quote it sends has room, when it is sent, beside what is left of
  that order (`FlattenRoom.RunFitsIff`, and `FlattenRoom.StepFitsIff` for one
  step). So it does wherever none is live (`PositionCap.RunCapped`), and with
  `flatten_outside_hours` off always (`PositionCap.RunCappedWithoutHours`). The
  shipped configuration has it on.
- A modify that names the other side adds a level that no held order accounts
  for (`BookBuilders.CrossingBreaks`); a record keeps the vectors equal to the
  sums if and only if it is no such modify (`BookBuilders.EditKeepsIff`).
- A bucket that is not a whole number of contracts can lose volume
  (`Vpins.VolumeCanBeLost`). A pour loses some if and only if what stands in the
  open bucket with it leaves, over a whole number of buckets, something more than
  nothing and under the slack (`Vpins.LosesIff`, which also covers buckets
  thinner than the slack).
- Dropping several digits of a decimal one at a time can miss the nearest value
  (`Bid64.TwiceRounded`). It is one rounding to the nearest even if and only if
  the tail dropped is not between a half and the tail from which the drops round
  up, a bound written out digit by digit (`Bid64.NearestIff`); so for normalising
  (`Bid64.NormaliseNearestIff`) and for the whole of encoding
  (`Bid64.SettledNearestIff`). For two digits those are the tails 46 to 49 past an
  odd digit and 51 to 54 past an even one (`Bid64.TwoDigits`).
- A printed decimal need not read back as the same word: a zero loses its
  exponent, and a significand over sixteen digits and a payload are lost
  (`Bid64Text.ZeroLosesExponent`, `Bid64Text.OddWordsAreLost`). It does if and
  only if it is canonical and not a zero with an exponent, or one of the plain
  specials (`Bid64Text.PrintThenParse`).
- An execution first reported with no side, for an order the broker does not
  hold, is never booked, whatever is reported of it later
  (`FillConservation.LateSideIsLost`). An execution is one
  fill if and only if its first report has a side, its own or that of the order
  held (`FillConservation.OneFillIffSided`).

## Model

| member | source | states |
|---|---|---|
| Throttle.MessageBudget.Acquire | src/execution/throttle.cpp:22-31 | a token is taken exactly when the refilled bucket can spare it over the headroom; what is spent and refused is counted |
| BudgetRules.GrantedIff | src/execution/throttle.cpp:11-31 | over any requests from a full bucket, each is granted exactly when the messages granted since it was last full, and this one, are within the burst and what the rate has added since, to within the slack |
| Throttle.ActionQueue.SubmitAction | src/execution/throttle.cpp:35-48 | a command replaces whatever waits under its key, with a new sequence number |
| Throttle.ActionQueue.WithdrawKey | src/execution/throttle.cpp:50-58 | the entry of a key is taken out, and true is returned, exactly when there is one |
| Throttle.SubmitMeans | src/execution/throttle.cpp:35-48 | an action takes the place of its key's first entry or joins at the end, and either way goes behind every other of its priority |
| Throttle.WithdrawMeans | src/execution/throttle.cpp:50-58 | the first entry of the key leaves, and the others keep their order; with none, nothing moves |
| Throttle.ActionQueue.TakeBest | src/execution/throttle.cpp:69-78 | the first of the least entries by priority then sequence is paid for and erased, or nothing is |
| Throttle.BestIndex | src/execution/throttle.cpp:70-75 | no entry is before the chosen one, and it is before every earlier entry of the list |
| SimulatedExchange.SimulatedBroker.PlaceOrder | src/execution/simulated.cpp:14-26 | a new order under the next id, queued by the fill model, and its acknowledgement in the log |
| SimulatedExchange.SimulatedBroker.ReplaceOrder | src/execution/simulated.cpp:28-41 | a live order takes the price and size, and goes to the back of the queue on a new price or more size; a dead one logs nothing |
| SimulatedExchange.SimulatedBroker.CancelOrder | src/execution/simulated.cpp:43-50 | a live order is dropped and its cancellation logged |
| SimulatedExchange.SimulatedBroker.DrainEvents | src/execution/simulated.cpp:52-57 | the log is handed over whole and is empty after |
| SimulatedExchange.SimulatedBroker.OnBookSnapshot | src/execution/simulated.cpp:82-103 | each order's queue shrinks to its level, crossed orders fill whole, and each fill is logged once, in order |
| SimulatedExchange.SimulatedBroker.OnTrade | src/execution/simulated.cpp:105-124 | trades through an order fill it whole, trades at its price eat its queue and then it |
| SimulatedExchange.SimulatedBroker.Compact | src/execution/simulated.cpp:141-145 | the finished orders, and no others, leave the list |
| QueueTrades.PlaceMeans | src/execution/simulated.cpp:14-26 | a new order waits behind the size that the first row at its price shows, to within the slack, and behind nothing at the front or where none shows |
| QueueTrades.ReplaceMeans | src/execution/simulated.cpp:28-41 | a replaced order keeps its fills and rests for the new size; it keeps its place exactly when the price did not move and the size left did not grow |
| QueueTrades.CancelMeans | src/execution/simulated.cpp:43-50 | a cancel ends that order, says so, and leaves every other live order |
| QueueTrades.BookMeans | src/execution/simulated.cpp:82-103 | a two-sided book fills an order whole exactly when the other side has come to its price; of any other it only shortens the queue, to what is shown there |
| QueueTrades.TradeMeans | src/execution/simulated.cpp:105-124 | a trade through the price fills an order whole, one at it by the other side eats the queue and then the order, and any other leaves it as it was |
| QueueTrades.TapeMeans | src/execution/simulated.cpp:105-124 | over any tape with no book between: without a trade through it, an order is filled by the volume traded at its price over its queue, up to what was left of it, and a live one waits behind the queue less that volume; with one, it is filled whole |
| QueueTrades.MarketMeans | src/live/pipeline.cpp:47-68 | a step's whole tape reaches an order first, and its book fills exactly what the tape has left and the other side has come to |
| QueueTrades.MoveFills | src/execution/simulated.cpp:126-139 | each fill of a move is of one resting order, at its price and on its side, for what the move filled, at the clock's time and the contract's fee |
| QuoteManagement.QuoteManager.ReconcileOne | src/execution/quotes.cpp:60-117 | one side's slot, wish, suspension and the time decide what is queued, withdrawn or timed out |
| QuoteManagement.QuoteManager.OnTimeout | src/execution/quotes.cpp:177-193 | the side is suspended, a cancel sent without a token, the order Unknown |
| QuoteManagement.QuoteManager.Place | src/execution/quotes.cpp:128-143 | places only into a free slot, which then awaits its acknowledgement |
| QuoteManagement.QuoteManager.MaybeReplace | src/execution/quotes.cpp:145-163 | replaces only a working order that still differs and is not too soon, with the latest wish; cancels if there is none |
| QuoteManagement.QuoteManager.RetryCancelling | src/execution/quotes.cpp:195-215 | re-sends a cancel only to an Unknown order, and counts it |
| QuoteManagement.QuoteManager.PumpQueue | src/execution/throttle.cpp:67-84 | runs entries best first until none is left or none can be paid for |
| QuoteManagement.QuoteManager.ApplyEvents | src/execution/quotes.cpp:217-258 | each event goes to the slot that holds its order; every fill is returned, held or not |
| QuoteManagement.QuoteManager.ApplyEvent | src/execution/quotes.cpp:232-277 | an acknowledgement, fill, cancellation or rejection moves the slot's order through its states |
| QuoteRules.ReplaceSentIff | src/execution/quotes.cpp:119-163 | a rested working order with a wish is replaced, for the wish, exactly when the prices are apart by more than the ticks allowed, or nothing remains, or the sizes are apart by more than the fraction allowed of what remains; else nothing moves |
| QuoteRules.ReplaceOtherwise | src/execution/quotes.cpp:145-153 | without a wish a working order is cancelled instead; an order that is not working is left alone |
| QuoteRules.PlaceSentIff | src/execution/quotes.cpp:128-143 | a place goes out exactly into a free slot, which then holds the quote under the broker's id, unfilled, its clocks started |
| QuoteRules.CancelSentIff | src/execution/quotes.cpp:165-175 | a cancel goes out exactly when there is an order with no cancel in flight, and is waited for from then |
| QuoteRules.RetrySentIff | src/execution/quotes.cpp:195-215 | a cancel goes out again exactly for an Unknown order, and is counted on it and in all |
| QuoteRules.ReconcileQueues | src/execution/quotes.cpp:60-117 | after a reconcile a side's place, replace, cancel or retry waits exactly when its slot, wish, suspension, prices, sizes and times call for it, the same inequalities written out |
| QuoteRules.TimesOutIff | src/execution/quotes.cpp:177-193 | a side is given up on exactly when its message is late: then Unknown, suspended, counted, and a cancel gone out |
| QuoteRules.UrgentFirst | src/execution/throttle.cpp:67-84 | a pump after a reconcile runs cancels before replaces and those before places, and what it leaves is no more urgent than what it ran |
| QuoteRules.PumpRuns | src/execution/throttle.cpp:67-84 | a pump is its least entries run in turn, as many as the tokens pay for |
| QuoteRules.LetGoIff | src/execution/quotes.cpp:232-258 | a slot is let go exactly by a cancellation, a rejection or the fill that completes its order |
| QuoteRules.StaysAs | src/execution/quotes.cpp:232-272 | an order that stays is filled by what the event says, takes a replace's terms on its acknowledgement, and works once answered |
| QuoteRules.SuspensionLifted | src/execution/quotes.cpp:244-272 | only a cancellation or an answered acknowledgement lifts a suspension, and only its own side's |
| QuoteRules.Unheld | src/execution/quotes.cpp:217-258 | an event about an order nobody holds moves no slot |
| Coherence.EventsAreReplays | src/execution/quotes.cpp:217-258 | the manager's loop over a log is, slot by slot, the replay of the log over that slot alone |
| Coherence.GoneWhenFilled | src/execution/quotes.cpp:236-243 | with no replace in flight and no ending logged, an order is forgotten exactly when its logged fills reach its size |
| Coherence.PlaceKeeps | src/execution/quotes.cpp:128-143 | a place keeps slots-with-log equal to what rests |
| Coherence.SentReplaceKeeps | src/execution/quotes.cpp:145-163 | a replace keeps it, whether the order still rests or its last fill is already logged |
| Coherence.CancelKeeps | src/execution/quotes.cpp:169-175 | a cancel keeps it, in the same two cases |
| Coherence.MarketKeeps | src/execution/simulated.cpp:82-139 | a book or a trade keeps it: one order's fill moves the slot as it moves the order |
| Coherence.ReadKeeps | src/execution/quotes.cpp:217-258 | reading the log keeps it, and leaves no order awaiting an answer |
| Coherence.ReconcileAgreesIff | src/execution/quotes.cpp:54-117 | a reconcile keeps the agreement if and only if it gives up on no replaced order that is gone from the exchange with its logged fills short of the old size |
| Coherence.EveryInterleavingAgrees | src/execution/quotes.cpp:60-277 | over every interleaving of wishes, reconciles, pumped commands, market moves, reads and flatten orders without such a timeout, replaying the undrained log over the two slots gives exactly the exchange's quotes: id, side, price, size, filled, all Working |
| Coherence.UnknownIsSuspended | src/execution/quotes.cpp:185-192 | an Unknown order's side is suspended, over every such interleaving |
| LostFill.TimeoutCanLoseAFill | src/execution/quotes.cpp:177-193 | a run of eight actions after which a timeout leaves a slot holding an order the exchange has dropped |
| Pipeline.TradingPipeline.TakeStep | src/live/pipeline.cpp:47-136 | tape, book, drain, fills, verdict, decision, reconcile and pump, in that order, on the real components |
| Pipeline.TradingPipeline.SplitFlatten | src/live/pipeline.cpp:147-164 | the flatten order's events and fills, and no others, are set aside; it is let go when filled, cancelled or rejected |
| Pipeline.TradingPipeline.FlattenNow | src/live/pipeline.cpp:166-195 | one flatten order crosses the touch for the whole position, chases it every three seconds, and pays a token each time |
| Pipeline.TradingPipeline.MayQuote | src/live/pipeline.cpp:103-130 | a verdict that pulls clears both wishes and may flatten; one that quotes sets what the engine decides |
| FlattenRules.NothingToFlatten | src/live/pipeline.cpp:166-170 | with no position, or no two-sided book, nothing is sent |
| FlattenRules.FirstFlatten | src/live/pipeline.cpp:166-195 | the first flatten order is for the whole position, on the side that closes it, at the tick nearest to the touch and the ticks beyond it, and goes out exactly when a token does |
| FlattenRules.NextFlatten | src/live/pipeline.cpp:166-195 | a live one is replaced, for what is left of it at the new price, exactly when three seconds have passed and a token can be taken |
| FlattenRules.FlattenTold | src/live/pipeline.cpp:147-164 | over any log the flatten order is let go exactly when it is cancelled, rejected, or a fill completes it, and what is left of it is its size less its fills |
| FlattenRules.VerdictActs | src/live/pipeline.cpp:103-132 | a verdict that does not quote clears both wishes and touches the exchange only to flatten; one that does wishes for the decision and leaves the flatten order |
| SessionCoherence.FlattenEventsFold | src/live/pipeline.cpp:147-164 | the flatten order is let go exactly when its logged fills reach what was left of it |
| SessionCoherence.StepOk | src/live/pipeline.cpp:47-136 | one step keeps the whole-session invariant, and comes to reconcile with no message in flight |
| SessionCoherence.RunOk | src/live/pipeline.cpp:47-136 | over every run the slots with the log are the exchange's quotes, the rest of the exchange is the one flatten order with the size left of it, and no order is Unknown |
| SessionCoherence.NoTimeoutInAnyRun | src/live/pipeline.cpp:69-136 | over every run no slot is pending when a step reconciles, Unknown is never reached, and timeouts stay zero |
| PositionCap.StepFillsNet | src/live/pipeline.cpp:69-77 | set aside or not, every fill in the log is booked once: the net size is the log's |
| PositionCap.PlacedFlattenFits | src/live/pipeline.cpp:166-188 | a flatten order only takes the position towards zero, so it fits under the cap |
| PositionCap.ReplaceKeepsCapped | src/execution/quotes.cpp:145-163 | a replace to the latest wish keeps the cap, the part already filled counted |
| PositionCap.StepCapped | src/live/pipeline.cpp:47-136 | the cap holds after the market moves, after the fills are booked, after the decision, and after every message of a step |
| PositionCap.RunCapped | src/quoting/engine.cpp:143-153 | from any position inside the cap, over every run that does not quote over a live flatten order, position plus all bids resting is at most the cap and position less all asks at least its negative, undrained fills counted |
| PositionCap.FlattenMeansHalted | src/risk.cpp:74-78 | with flattening outside hours off, a live flatten order means a halt, so nothing is quoted over it |
| PositionCap.RunCappedWithoutHours | src/quoting/engine.cpp:143-153 | the cap then holds over every run whatever it is given |
| OverFlatten.QuotesCanPassTheCap | src/live/pipeline.cpp:120-132 | with it on, a run of three steps, under settings the loader accepts and signals the model can give, after which what rests could carry the position past the cap |
| FlattenRoom.SideIs | src/live/pipeline.cpp:166-188 | with the log read of fills, what rests on a side is what is left of the flatten order there and of the side's quote, and nothing else |
| FlattenRoom.PlaceFitsIff | src/execution/quotes.cpp:128-143 | a new quote keeps the cap if and only if the position, what is left of the flatten order on its side and the quote are together inside it |
| FlattenRoom.ReplaceFitsIff | src/execution/quotes.cpp:145-163 | a replace of a quote that rests keeps it under the same condition and no other |
| FlattenRoom.CommandFitsIff | src/execution/quotes.cpp:128-215 | any command keeps the cap if and only if the quote it sends, if it sends one, has room |
| FlattenRoom.StepFitsIff | src/live/pipeline.cpp:47-136 | the market, the fills and the decision never pass the cap, and the messages of a step keep it throughout if and only if each quote sent has room when it is sent |
| FlattenRoom.RunFitsIff | src/live/pipeline.cpp:47-136 | from any position inside the cap, over every run: the cap holds at every message if and only if every quote sent has room when it is sent |
| MessageBound.SpentInWindow | src/execution/throttle.cpp:11-31 | in any window tokens spent are at most the burst plus the rate times the window, to within the slack |
| MessageBound.ReconcilePaid | src/execution/quotes.cpp:177-193 | a reconcile sends at most one message a timeout, and spends nothing |
| MessageBound.PumpPaid | src/execution/throttle.cpp:67-84 | a pump sends at most one message a token |
| MessageBound.MessagesInWindow | src/execution/throttle.cpp:11-31 | in any window of any run with times that do not go back, messages are at most burst plus rate times window plus slack plus the timeouts in it |
| MessageBound.MessagesInRun | src/live/pipeline.cpp:47-136 | from a fresh start over the simulated exchange there are no timeouts to add |
| MessageBound.PumpRunsLeast | src/execution/throttle.cpp:67-84 | what a pump runs and what it leaves are what waited; it runs them in order of priority then sequence, none left is before one run, and something is left only when no token is |
| MessageBound.ReconcileDecidesQueue | src/execution/quotes.cpp:60-117 | after a reconcile at most one command waits a side, and which one is decided by slot, wish, suspension and time, whatever waited before |
| HaltSafety.InFlightOnlyCancels | src/execution/quotes.cpp:128-215 | while an order is pending or Unknown, running any command for its side sends nothing but a cancel of it |
| HaltSafety.ReconcileOnlyCancels | src/execution/quotes.cpp:76-97 | a reconcile itself sends nothing but the cancel of an overdue order, which is then Unknown and its side suspended |
| HaltSafety.HaltSticks | src/risk.cpp:16-26 | a halt is never undone |
| HaltSafety.HaltedStepNoNew | src/live/pipeline.cpp:103-136 | the step in which risk halts, and each after it, leaves no quote that did not rest before it on the same terms |
| HaltSafety.HaltedForGood | src/live/pipeline.cpp:103-136 | over every run after a halt, every quote resting at the end rested at the halt, at the same price and size |
| QueuePosition.RespondMonotone | src/execution/simulated.cpp:82-139 | one market move: an order with less queue in front and more already filled is never overtaken |
| QueuePosition.FillAntitoneInQueue | src/execution/simulated.cpp:74-139 | over any stream, cumulative fill is antitone in the queue an order starts behind |
| QueuePosition.FrontBoundsBack | src/execution/simulated.cpp:74-80 | the same order met by the same books and trades never fills more under "back" than under "front" |
| QuotingEngine.QuoteEngine.DecideQuotes | src/quoting/engine.cpp:55-185 | which sides are quoted, where and for how much |
| QuotingEngine.QuoteEngine.ChooseSides | src/quoting/engine.cpp:104-177 | a side is wanted exactly when no rule removes it, each rule stated once for either side |
| QuotingEngine.DecisionFits | src/quoting/engine.cpp:143-153 | no quote filled whole takes the position past the cap, and none is empty or over the maximum size |
| QuotingEngine.OnlyReduces | src/quoting/engine.cpp:104-143 | in an extreme regime, and past the reduce-only position, a quote can only shrink the position |
| QuotingEngine.BehindTheTouch | src/quoting/engine.cpp:89-94 | each quote sits behind_best_ticks or more behind its touch, to within the slack of the snap |
| QuotePrices.AnchorIs | src/book/book.cpp:7-23 | the anchor is the mean of the touches, or weighs each touch by the other side's size, as configured |
| QuotePrices.BidIs | src/quoting/engine.cpp:55-185 | there is a bid exactly when every rule allows one; it is at the highest tick, up to the slack of the snap, that is no higher than the anchor less inventory times gamma times sigma squared times horizon, plus the skew, less the half spread, nor than the touch less the ticks behind it, and for the clipped size or the room under the cap |
| QuotePrices.AskIs | src/quoting/engine.cpp:55-185 | the same of the ask, mirrored |
| QuotePrices.AlwaysPriced | src/quoting/engine.cpp:89-96 | every book and position has such ticks, so the two laws before always apply |
| QuotePrices.OneSidedIsSilent | src/quoting/engine.cpp:55-68 | without two sides there is no quote |
| QuotePrices.LeansDown | src/quoting/engine.cpp:45-47 | a longer position never raises either price |
| Inventory.PositionBook.ApplyFill | src/inventory.cpp:21-46 | position, average, realised and fees after one fill, and what it closed out |
| AccountRules.FillCounts | src/inventory.cpp:21-46 | every fill moves the position by its signed size, pays its fee, and is counted and kept |
| AccountRules.AddingAverages | src/inventory.cpp:25-32 | a fill that adds realises nothing, and average times position grows by price times size |
| AccountRules.TakingRealises | src/inventory.cpp:33-42 | a fill that takes realises what it closes at its gain over the average, which what is left keeps |
| AccountRules.TurningOver | src/inventory.cpp:33-46 | a fill past the whole position realises all of it and opens the excess at the fill's price |
| AccountRules.MarkedAt | src/inventory.cpp:53-58 | marked P&L is what was realised, what is held at its gain over the average, less fees |
| Inventory.BookConserves | src/inventory.cpp:21-46 | one fill that adds, reduces or flips keeps realised P&L plus outlay equal to the position at cost |
| Inventory.RealisedIdentity | src/inventory.cpp:21-58 | over every list of fills, from any account: realised is multiplier times (position at average price less the signed outlay), relative to the start |
| Inventory.PnlIsRevaluation | src/inventory.cpp:53-58 | from flat, total P&L at a mark is the fills revalued at it, less fees |
| Inventory.PnlIgnoresOrder | src/inventory.cpp:21-58 | from flat, the marked P&L and the position depend on the fills and not on their order |
| Risk.RiskMonitor.Judge | src/risk.cpp:22-80 | the verdict and the sticky halt, in the order the tests come |
| Risk.MarginIs | src/risk.cpp:51-62 | the margin test is that there is margin and worth, and the margin is over its share of the worth |
| Risk.QuotesWhen | src/risk.cpp:22-80 | quotes exactly when never halted, nothing fatal and nothing passing is wrong; halted exactly when once halted or something fatal shows without the kill file |
| Risk.FlattensWhen | src/risk.cpp:26-78 | flattens exactly under an old halt, a loss, or a cap breach the broker agrees with, where halts flatten, or out of hours with nothing else wrong, where the hours do; and only a position there is |
| Ibkr.IbkrBroker.OrderStatus | src/execution/ibkr.cpp:256-277 | an order the broker holds is acknowledged, or ended and let go; any other status logs nothing |
| Ibkr.IbkrBroker.ExecDetails | src/execution/ibkr.cpp:279-302 | the first report of an execution with a known side logs one fill, with the reported commission or the product's fee |
| Ibkr.IbkrBroker.Error | src/execution/ibkr.cpp:309-322 | an order-ending code ends and lets go of a held order once; any other does nothing |
| Ibkr.IbkrBroker.DrainEvents | src/execution/ibkr.cpp:244-249 | the log is handed over whole and is empty after |
| BrokerStory.HeldIs | src/execution/ibkr.cpp:199-322 | an order is held exactly when it was placed and nothing since has ended it, on the side of that placing |
| BrokerStory.ToldExactly | src/execution/ibkr.cpp:199-322 | after any history each call and callback makes the broker say exactly what the history calls for: acknowledgements, endings, and one fill for the first sided report of an execution, bought where it reads BOT and sold where it reads SLD, with the commission last reported or the product's fee |
| FillConservation.StepFillsAll | src/live/pipeline.cpp:69-77 | held, forgotten, cancelled or the flatten order's, every fill in the log is booked, and booked once |
| FillConservation.BookedBeforeDeciding | src/live/pipeline.cpp:47-103 | before a step decides it has booked all that was logged before it and all that its own tape and book filled |
| FillConservation.EachExecutionBookedOnce | src/execution/ibkr.cpp:279-302 | over any interleaving of callbacks and drains, fills booked and fills still in the log are together the start and one fill for each execution first reported with a side |
| FillConservation.DrainedPosition | src/live/pipeline.cpp:69-77 | position plus the log's net size is the start plus the signed size of every distinct execution |
| BrokerStory.PositionTold | src/execution/ibkr.cpp:279-302 | over any history, position plus the log's net size is the start plus the truncated shares of each execution first reported BOT, less those of each first reported SLD, and with the held order's side where the report has none |
| FillConservation.OneFillIffSided | src/execution/ibkr.cpp:279-289 | over any history an execution is one fill if its first report has a side, its own or that of the order held then, and otherwise none |
| FillConservation.LateSideIsLost | src/execution/ibkr.cpp:281-289 | a report that says bought, after one of the same execution without a side or an order, is not a fill |
| FillConservation.OneFillAnExecution | src/execution/ibkr.cpp:279-289 | and the fills are as many as the executions first reported with a side |
| FillConservation.OneEndingAnOrder | src/execution/ibkr.cpp:256-322 | each order id yields at most one terminal event, none while it is held, and none if it was never placed |
| Markouts.MarkoutTracker.Record | src/inventory.cpp:75-89 | a new row with its edge at the fill, pending |
| Markouts.MarkoutTracker.Update | src/inventory.cpp:91-111 | every pending row is stamped where horizons have elapsed; complete ones leave in order and are returned |
| AccountRules.RowStarts | src/inventory.cpp:75-89 | a row starts with its fill's terms, its edge against the anchor of the moment on the fill's side, and no mark |
| AccountRules.MarkIs | src/inventory.cpp:91-111 | a horizon's mark is the gain on the fill's side at the first update with an anchor at or after its time, and there is none before one |
| Markouts.UpdateIsPass | src/inventory.cpp:91-111 | stamping and sorting row by row is stamping every pending row and then sorting |
| Markouts.RunFaithful | src/inventory.cpp:75-111 | over any run each slot of each row is the first anchor its own history offers at or after the fill plus the horizon, and a row is pending until it is complete and an update has seen it |
| Markouts.ReturnedOnce | src/inventory.cpp:91-111 | over any run every row recorded is either pending, in order, or has been returned exactly once |
| OrderBooks.OrderBook.Position | src/book/book.cpp:60-69 | the binary search finds the first level not better than the price, and says whether it is at it |
| OrderBooks.FoundIsListed | src/book/book.cpp:60-69 | in a sorted vector found means listed, and everything after the place is worse |
| OrderBooks.AddEdits | src/book/book.cpp:71-81 | an add leaves the vector sorted and every other price as it was, with the level grown or begun |
| OrderBooks.RemoveEdits | src/book/book.cpp:83-91 | a removal leaves it sorted and every other price as it was, with the level shrunk, or gone when its size or count is |
| OrderBooks.ReplaceEdits | src/book/book.cpp:93-107 | setting a level leaves it sorted and every other price as it was, with the level set, or gone when the size is none |
| OrderBooks.TwoStepRemoval | src/book/builder.cpp:80-86 | taking the size off and then the order is taking both off at once |
| OrderBooks.OrderBook.Add | src/book/book.cpp:71-81 | the method on the one side, the other untouched |
| OrderBooks.OrderBook.Remove | src/book/book.cpp:83-91 | the method on the one side, the other untouched |
| OrderBooks.OrderBook.SetLevel | src/book/book.cpp:93-107 | the method on the one side, the other untouched |
| OrderBooks.OrderBook.Find | src/book/book.cpp:115-119 | the level returned is the one listed at that price, or there is none |
| OrderBooks.OrderBook.Best | src/book/book.cpp:109-113 | the best price is a listed one and at least as good as every level's; none exactly when the side is empty |
| OrderBooks.SnapshotIs | src/book/book.cpp:120-134 | a snapshot shows the best levels, as many as asked for and at most thirty-two, at their prices over a thousand million, with their sizes and counts |
| BookBuilders.MboBuilder.Apply | src/book/builder.cpp:9-89 | a record edits the map and the vectors, keeps both sorted, and yields a trade exactly for trade records |
| HeldOrders.HeldAsTold | src/book/builder.cpp:9-89 | over every stream from empty, an order is held exactly when its last accepted add or modify came after the last clear, no cancel of it came since, and no fill since has reached what was left of it; its price and size are that record's less those fills, its side that of the record that brought it in or of a later add |
| HeldOrders.StandsBySum | src/book/builder.cpp:72-87 | with no negative fill that last condition is that the fills since sum to less than its size |
| HeldOrders.StandsOnce | src/book/builder.cpp:33-71 | at most one record is the one an order stands by |
| HeldOrders.SideKept | src/book/builder.cpp:52-71 | a modify of a held order keeps the side it was told on |
| HeldOrders.DroppedIff | src/book/builder.cpp:44-87 | a record is counted as dropped exactly when it cancels, modifies or fills an order that is not held |
| HeldOrders.TradeTold | src/book/builder.cpp:24-26 | only a trade record yields a trade: its size, its price in points, a purchase where the bid side aggressed and a sale where the ask did |
| BookBuilders.EditKeepsIff | src/book/builder.cpp:26-87 | a record keeps the vectors equal to the sums over the held orders if and only if it is no modify that names the other side |
| BookBuilders.CrossingBreaks | src/book/builder.cpp:64-71 | such a modify always adds a level no held order accounts for |
| BookBuilders.WholeFillDetaches | src/book/builder.cpp:78-86 | a full fill's two removals leave what cancelling the order leaves |
| BookBuilders.RunConsistent | src/book/builder.cpp:9-89 | after every stream whose modifies keep their side, each vector is strictly best first and lists exactly the sums |
| BookBuilders.ListedOnce | src/book/builder.cpp:9-89 | then a price is listed exactly when an order rests there, once, with the sum of the sizes and the number of the orders |
| BookBuilders.CompleteAfterSnapshot | src/book/builder.cpp:91-101 | the book is complete exactly when a snapshot has ended and none is still arriving |
| BookBuilders.MboBuilder.QueueAhead | src/book/builder.cpp:103-106 | in a consistent book, the size of every order held at that price |
| BookBuilders.Mbp10Builder.Apply | src/book/builder.cpp:108-126 | after a record a price stands exactly when the record's last word on it gives it size, and a trade record yields its trade |
| HeldOrders.LevelTold | src/book/builder.cpp:108-126 | of a record of ten levels a price stands on a side as the last row that quotes it for something gives it, its size and count cut to 32 bits, and not at all where that size is then nothing or no row quotes it |
| Vpins.Vpin.Update | src/signals/vpin.cpp:24-58 | one trade folded in by side, or split; how many buckets it closed |
| Vpins.Vpin.Spill | src/signals/vpin.cpp:37-57 | the spill loop ends, and leaves what spilling the two shares bucket by bucket leaves |
| BucketRules.SidesKept | src/signals/vpin.cpp:24-58 | with a whole bucket size, over any tape: what the buckets hold as bought is what was bought, a trade with no side counting half if such trades are split and nothing otherwise, and so with what was sold |
| BucketRules.ReadingIs | src/signals/vpin.cpp:15-22 | the reading is the mean, over the newest buckets, of how far bought and sold are apart as a share of the size; there is none before a bucket has closed |
| Vpins.SpilledIsPoured | src/signals/vpin.cpp:37-57 | spilling two shares in proportion is pouring their volume, with its parts, into the buckets in turn |
| Vpins.PourConserves | src/signals/vpin.cpp:37-57 | a pour adds its volume, all but the leftover the slack lets go |
| Vpins.LosesIff | src/signals/vpin.cpp:55 | a pour of any volume into a bucket of any size loses some if and only if what stands there with it leaves more than nothing and less than the slack over a whole number of buckets, or, where a bucket is thinner than the slack, is more than one bucket |
| Vpins.LeftoverIs | src/signals/vpin.cpp:37-56 | what is left is the volume less a whole number of buckets, and under one of them |
| Vpins.VolumeCanBeLost | src/signals/vpin.cpp:55 | one contract into a bucket half the slack short of one loses that half |
| Vpins.TapeConserves | src/signals/vpin.cpp:24-58 | with a whole bucket size, over any tape: each closed bucket is exactly full, and closed plus open volume is all that was classified |
| Vpins.VolumeIs | src/signals/vpin.cpp:48-54 | bucket size times buckets closed plus the open shares is the volume held |
| Vpins.TapeProper | src/signals/vpin.cpp:15-22 | over any tape every imbalance, and so the reading, is in [0, 1] |
| Vpins.PouredTwice | src/signals/vpin.cpp:37-57 | a whole volume poured in two goes, the same way, is one pour |
| Vpins.CutTrade | src/signals/vpin.cpp:24-58 | with a whole bucket size one trade cut in two, anywhere in a tape and whatever its side, changes nothing: not the buckets, not their number |
| ToxicityGates.ToxicityGate.Update | src/signals/vpin.cpp:65-70 | a trade closes so many buckets, each is a reading, and the state is returned, with the reading, its rank, the warm-up, the multipliers and the bucket count, exactly when one closed |
| ToxicityGates.ToxicityGate.Push | src/signals/vpin.cpp:75-86 | the oldest leaves, the reading joins in place, and its rank is read off the sorted window |
| GateRules.RankIs | src/signals/vpin.cpp:83-86 | the rank of a reading is the share of the history under it and half the share equal to it |
| GateRules.ReadingMeans | src/signals/vpin.cpp:72-114 | a reading joins the window, oldest out first, is ranked in it, and once the gate is on and warm moves the level: up to the highest whose enter, by its own name, the rank has reached, else down one past its exit after the dwell, else nowhere |
| GateRules.StepMeans | src/signals/vpin.cpp:92-114 | the same of a rank alone, with the dwell and the transition recorded |
| GateRules.StateMeans | src/signals/vpin.cpp:116-123 | while off or cold the gate says calm and multiplies by one; else it says its level and that level's multipliers |
| ToxicityGates.FastRankIsMidRank | src/signals/vpin.cpp:84-86 | two binary searches in the arrangement rank a reading as counting it over the history does |
| ToxicityGates.RankWithin | src/signals/vpin.cpp:83-86 | the rank of a reading in its own history lies in [0.5/n, 1 - 0.5/n] |
| ToxicityGates.RankedAmongNewest | src/signals/vpin.cpp:72-90 | over any readings, history is the last at most history_buckets of them, sorted is their ascending arrangement, and percentile the naive mid-rank of the last |
| ToxicityGates.RunSettles | src/signals/vpin.cpp:92-114 | level stays in 0..3, and after each step it is 3 or the rank is under its next enter |
| ToxicityGates.TransitionsChain | src/signals/vpin.cpp:103-113 | each transition starts at the level the one before it ended at, the first at 0, the last at the present one |
| ToxicityGates.DwellCounts | src/signals/vpin.cpp:87-112 | the dwell counts the readings the level has held for |
| ToxicityGates.DownAfterDwell | src/signals/vpin.cpp:108-113 | a level is left downwards by one, and only after it has held for min_dwell readings |
| ToxicityGates.BandNeverChanges | src/signals/vpin.cpp:92-114 | ranks that stay between the level's exit and the next enter never change it |
| ToxicityGates.BucketsAreReadings | src/signals/vpin.cpp:65-70 | the buckets one trade closes are as many readings at the value it leaves, so a gate's life is a run of readings |
| EdgeProbes.ProbeQueue.PushRow | tools/edge_probe.cpp:379-392 | a row no earlier than the last joins at the end with no horizon stamped |
| EdgeProbes.ProbeQueue.Resolve | tools/edge_probe.cpp:419-448 | the pointers stamp what the naive scan of every row ever pushed would, stay between base and the end, and complete rows leave in push order, and no others |
| EdgeProbes.ProbeQueue.Advance | tools/edge_probe.cpp:423-433 | one horizon's pointer stamps every row the scan would stamp at it, although it stops at the first not due |
| EdgeProbes.ProbeQueue.WriteOut | tools/edge_probe.cpp:435-447 | the oldest rows leave while complete, and an incomplete one stays |
| EdgeProbes.ProbeQueue.Finish | tools/edge_probe.cpp:239-245 | at the end every row has been written, once, in push order |
| EdgeProbes.HorizonsMakeScan | tools/edge_probe.cpp:423-433 | horizon by horizon or row by row, the scan is the same |
| EdgeProbes.NaiveIsFirst | tools/edge_probe.cpp:404-409 | over any run horizon h of a row holds the first two-sided book processed after its push at or after its time plus the horizon |
| Bid64Words.SmallFieldsDisjoint | include/harvester/execution/bid64.hpp:93-96 | in the short form sign, exponent and coefficient do not overlap, come back from their shifts and masks, and never spell the other form |
| Bid64Words.LargeFieldsDisjoint | include/harvester/execution/bid64.hpp:97-99 | the same of the long form, its hidden leading bits restored |
| Bid64.SmallShiftsPack | include/harvester/execution/bid64.hpp:93-96 | the word that shifts and ors build of the short form's fields is, as a number, the one they pack to |
| Bid64.LargeShiftsPack | include/harvester/execution/bid64.hpp:97-99 | the same of the long form |
| Bid64.UnpackPacked | include/harvester/execution/bid64.hpp:40-61 | every coefficient of up to sixteen digits and every exponent survive in either form, and never read as NaN or infinity |
| Bid64.PackUnpacked | include/harvester/execution/bid64.hpp:40-61 | every canonical finite word is the packing of what it decodes to |
| Bid64.Normalise | include/harvester/execution/bid64.hpp:65-72 | the loop drops digits one by one, half to even, until sixteen are left |
| Bid64.NormaliseNear | include/harvester/execution/bid64.hpp:65-72 | dropping k digits raises the exponent by k and is out by at most 5(10^k - 1)/9 units of the input; none is dropped that need not be; one is dropped to the nearest even |
| Bid64.TwiceRounded | include/harvester/execution/bid64.hpp:65-72 | a coefficient that two drops take further than the nearest |
| Bid64.NearestEvenIs | include/harvester/execution/bid64.hpp:63-64 | rounding the whole tail at once gives the nearest value, and the even one of two that are as near |
| Bid64.ShortenedIs | include/harvester/execution/bid64.hpp:66-71 | any number of one-digit drops round up exactly from a tail fixed by their number and the parity of what is kept |
| Bid64.NearestIff | include/harvester/execution/bid64.hpp:66-71 | k drops are one rounding to the nearest even, and within half a step, if and only if the tail is not between that bound and a half |
| Bid64.TwoDigits | include/harvester/execution/bid64.hpp:66-71 | for two digits those tails are 46 to 49 past an odd digit and 51 to 54 past an even one |
| Bid64.NormaliseNearestIff | include/harvester/execution/bid64.hpp:65-72 | normalising makes the fewest drops that leave sixteen digits, and is rounding to the nearest even under exactly that condition on them |
| Bid64.SettledNearestIff | include/harvester/execution/bid64.hpp:74-91 | wherever encoding drops digits, for length, for a small exponent or for both, it is rounding to the nearest even under exactly that condition on all it drops |
| Bid64.TradingIsExact | include/harvester/execution/bid64.hpp:77-80 | trading exponent for zeros keeps the value exactly and stops only in range or out of digits |
| Bid64.DenormaliseNear | include/harvester/execution/bid64.hpp:81-90 | rounding up to the least exponent is out by no more than dropping as many digits |
| Bid64.PastTheLargest | include/harvester/execution/bid64.hpp:77-91 | an exponent past the largest is exact while the zeros fit in sixteen digits, and infinity exactly when they do not |
| Bid64.SettledNear | include/harvester/execution/bid64.hpp:74-101 | whatever goes in, what is encoded is near it in value, and exactly it where the exponent came down |
| Bid64.Encode | include/harvester/execution/bid64.hpp:74-101 | the three loops end, and the word is the packing of what they leave, or infinity |
| Bid64.DecodeEncoded | include/harvester/execution/bid64.hpp:40-101 | for every coefficient and exponent, decoding the encoding gives what the loops left, or infinity past the range |
| Bid64.EncodeThenDecode | include/harvester/execution/bid64.hpp:74-101 | what fits is encoded as it is and read back as it was: sign, coefficient, exponent |
| Bid64.DecodeThenEncode | include/harvester/execution/bid64.hpp:40-101 | every canonical finite word is the encoding of what it decodes to |
| Bid64Text.FromString | include/harvester/execution/bid64.hpp:123-178 | blanks, sign, words, digits, point and exponent, and NaN for anything else |
| Bid64Text.DecimalRead | include/harvester/execution/bid64.hpp:137-177 | a decimal of up to thirty-four digits is read as its digits scaled by those after the point |
| Bid64TextRules.NumeralRead | include/harvester/execution/bid64.hpp:123-178 | every numeral of any length, with its blanks, sign, point and exponent, is read as the first thirty-four figures past its leading noughts, scaled by the figures before the point less those counted and by the first six figures of the exponent |
| Bid64TextRules.WordsRead | include/harvester/execution/bid64.hpp:131-136 | NaN, nan, SNaN, Inf and inf, after blanks and a sign, are the quiet NaN and the infinity of that sign, whatever follows |
| Bid64TextRules.OthersRefused | include/harvester/execution/bid64.hpp:123-178 | a text that is no such numeral and begins with no such word is the quiet NaN, and so is no text at all |
| Bid64Text.FiniteRead | include/harvester/execution/bid64.hpp:123-190 | what is printed of a finite word is read as its encoding, a zero with its exponent dropped |
| Bid64Text.WordRead | include/harvester/execution/bid64.hpp:131-136 | what is printed of a special is read as the plain one of its kind and sign |
| Bid64Text.ZeroLosesExponent | include/harvester/execution/bid64.hpp:176 | a zero with any other exponent is read back with exponent zero |
| Bid64Text.OddWordsAreLost | include/harvester/execution/bid64.hpp:123-190 | a significand over sixteen digits and a NaN's payload do not read back |
| Bid64Text.PrintThenParse | include/harvester/execution/bid64.hpp:123-190 | printing and reading back gives the same word if and only if it is a canonical number, not a zero with an exponent, or a plain special; so for every canonical non-zero number |
| JsonWriter.Writer.Separate | src/util/json.cpp:12-21 | a comma before every value of a container but its first, and none after a key |
| JsonWriter.Writer.Escape | src/util/json.cpp:94-112 | quotes, backslashes and control characters are escaped, everything else is itself |
| JsonWriter.EscapedIsPrintable | src/util/json.cpp:94-112 | nothing below a space is left raw in a string: section 7 of RFC 8259 |
| JsonWriter.ValueWritten | src/util/json.cpp:12-112 | the streamed calls for any value, in whatever container or after whatever key, append its text and at most the comma before it, and leave the writer ready for the next |
| JsonWriter.DocumentWritten | src/util/json.cpp:12-112 | from a new writer, the whole document |
| JsonParser.Parser.Document | src/util/json.cpp:133-142 | one value and nothing after it but blanks, or the problem and where |
| JsonParser.Parser.ReadValue | src/util/json.cpp:163-177 | the first character says which kind; the cursor stops where the value ends |
| JsonParser.Parser.ReadObject | src/util/json.cpp:179-201 | a name seen again takes the new value |
| JsonParser.Parser.ReadArray | src/util/json.cpp:203-221 | items and commas up to the bracket |
| JsonParser.Parser.ReadString | src/util/json.cpp:223-264 | escapes of one letter, and \u as one, two or three bytes |
| JsonParser.Parser.ReadNumber | src/util/json.cpp:266-280 | the longest run of number characters, which must all be one decimal |
| JsonRules.AcceptedIff | src/util/json.cpp:133-284 | a document is accepted if and only if it spells a value by a grammar written over its characters: blanks, literals, escaped strings, decimals, lists, objects |
| JsonRules.SpelledIsParsed | src/util/json.cpp:133-284 | whatever value a document spells is the one it is parsed as, all of it consumed |
| JsonRules.ParsedIsSpelled | src/util/json.cpp:133-284 | and a document that is parsed spells what it is parsed as |
| JsonRules.LastNameKept | src/util/json.cpp:179-201 | of a name written more than once the last value is kept |
| JsonRules.TrailingRefused | src/util/json.cpp:137-142 | a value followed by anything but blanks is refused where that stands |
| JsonRules.LiteralRefused | src/util/json.cpp:163-177 | a word that begins like a literal and is none is refused where it starts |
| JsonTokens.BytesAre | src/util/json.cpp:245-260 | a code point's bytes are the one, two or three that UTF-8 gives it, written as sums, and no others: section 3 of RFC 3629 |
| JsonTokens.QuotedRead | src/util/json.cpp:223-264 | a string says what its characters, its eight escapes of one letter and its four-digit code points of either case say |
| JsonTokens.StringRefused | src/util/json.cpp:223-264 | where a string goes wrong after whole characters, and as which problem |
| JsonTokens.NumberRead | src/util/json.cpp:266-280 | a decimal is its digits times ten to its exponent less the digits past the point, with its sign |
| JsonTokens.NumberRefused | src/util/json.cpp:266-280 | a run of number characters that is no decimal is refused at its end, and no such character at all where it was looked for |
| JsonRoundTrip.StringRead | src/util/json.cpp:94-112 | a string written with its escapes is read back as it was, and the cursor stops after its quote |
| JsonRoundTrip.NumberRead | src/util/json.cpp:266-280 | an integer written in decimal is read back as it was |
| JsonRoundTrip.DistinctNamesKept | src/util/json.cpp:179-201 | an object whose names are distinct loses nothing |
| JsonRoundTrip.NamesRead | src/util/json.cpp:179-201 | and gains nothing: the names read are the names written |
| JsonRoundTrip.ValueRead | src/util/json.cpp:163-280 | wherever a written value stands in a text, it is read back and the cursor stops where it ends |
| JsonRoundTrip.WriteThenParse | src/util/json.cpp:12-284 | parsing what the streamed calls wrote for any tree of objects, arrays, strings, integers, booleans and null consumes all of it and returns that tree |

## Left out

- PositionCap.RunCapped: asks that no step quotes over a live flatten order, which is enough but not needed; FlattenRoom.RunFitsIff has the exact condition.
- FillConservation.EachExecutionBookedOnce: an execution first reported with neither BOT nor SLD for an order the broker does not hold is remembered and dropped, as the code does, so a later report of it with a side is not booked.
- JsonRoundTrip.WriteThenParse: numbers are read exactly, so an integer past 2^53, which the program's double would round, comes back whole; the writer's doubles are not modelled.
- Vpins.TapeConserves: sums and shares are exact reals; the compensated sum of the readings is a plain one.
- Pipeline.TradingPipeline.TakeStep: the gate, the flow, the volatility, the markouts, the journal and the external series are not driven from the step; what the engine and the risk monitor read of them is an input, and one clock reading serves a step's manager and broker.
- QuotingEngine.QuoteEngine.DecideQuotes: the model's half spread (a logarithm) and the signals' skew (a hyperbolic tangent) are inputs, the final rounding of a price to ten decimals is not made, and the reasons are not kept.
- Pipeline.TradingPipeline.SplitFlatten: the flatten order's id is taken before the loop; the code reads it again on each turn although the loop may have cleared it.
- QuoteManagement.QuoteManager.PumpQueue: the queue's pump is a method of the manager that its closures belong to, and the queue's keys are the two sides.
- OrderBooks.OrderBook.Add: level sums are unbounded, where the code's wrap past 32 bits; the sizes of single records are truncated as the code does.
- Ibkr.IbkrBroker.Place: a price is taken as it is given, on a tick or not; the code rounds it to one and then to ten decimals, and so in a replace.
- JsonTokens.QuotedRead: four characters after \u that are not all hexadecimal mean what the model's reading of the C library's `strtoul` makes of them; only four digits are given their meaning from outside.
- Bid64TextRules.OthersRefused: asks that the text holds no terminator, as a C string cannot.
- QueueTrades.TapeMeans: asks that no trade of the tape and no queue is of negative size.
- OrderBooks.OrderBook.Snapshot: timestamps and sequence numbers are not carried.
- Bid64Text.FromString: the 128-bit coefficient is unbounded, which at thirty-four digits it never exceeds.
- Bid64.Encode: words are numbers and fields are cut by division and remainder; Bid64.SmallShiftsPack and Bid64.LargeShiftsPack equate the words that shifts and masks build to those numbers.
- JsonParser.Parser.ReadObject: a value's members are a map, so their order is not kept, and the depth of the recursion is not bounded.
- EdgeProbes.ProbeQueue.Resolve: the other fields of a row and the patching of a sweep's rows are left out, and so is the queue of samples, which has the same pointers.
- Sessions with the data feed and the gateway, sockets, threads, condition variables, journal files, the command line, reports, deployment and the Python tools.
- `to_double` and `from_double`, which go through binary floating point.
- The synthetic market and its random numbers, YAML, time zones, the product registry.
- The gateway's depth ladder, the order flow signals, the reconnect loop and the pull at the end of a replay.
- The summaries, labels, log lines and snapshot rows.
