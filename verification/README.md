# Verification of the trading bot's algorithms and protocols

A Dafny 4.11 model of the parts of the bot that hold real logic, with proofs about them. `double` is
modelled as `real`, `Amount` as an integer number of micro-USDC, machine words as bit-vectors or bounded
integers where their width matters. Exchange replies, the clock and what other threads write are arbitrary
values. Check everything with `dafny verify dfyconfig.toml`.

What is modelled, and the main results:

* **Keccak-256.** `Fips202` is FIPS 202 sections 3.2, 3.3, 4 and 5.1, bit by bit. `Keccak` is the in-place
  permutation as coded. For every state the 24 coded rounds are the standard's rounds
  (`KeccakRefinesFips`), each step mapping and the whole permutation are injective (`KeccakInjective`), and
  for every message the byte-level hash is the section 4 sponge with rate 1088, capacity 512 and no domain
  bits (`Keccak256`).
* **Lock-free protocols.** `RingBuffer` interleaves the single loads, stores and slot accesses of one
  producer and one consumer, with 64-bit counters that wrap; `TickRecorder` puts the drain thread, its
  shutdown handshake and its counters on top of it; `NonceManager` interleaves increments with the
  compare-and-swap loop of a resync.
* **256-bit decimals.** `Decimal256` proves long division and multiply-and-add on four limbs against the
  value of the bytes, and both round trips.
* **Order execution.** `OrderStateMachine` is one market's machine as a transition on values, `OsmObject` the
  same machine as an object that moves shared accounts, proved equal step by step. `MachineConduct` says exactly
  what one pass does in every state, in numbers. `SharedAccounts` runs any
  number of machines on their own threads; `ExposureCap` and `OpenLimit` say how far exposure and count can
  go over every interleaving, and over serialised passes (`SerialPasses`). `StaleReads` and `Scenarios` hold
  concrete runs and inputs.
  `TakerArm`, `MakerArm`, `Sizing`, `Amounts` and `PositionManager` are the parts a machine is made of.
  `MarketScanner` is the source of the lifecycle events.
* **Windows.** `RollingVol`, `Watchdog` and `PositionManager` keep running aggregates; they are compared with
  recomputation over the whole history. Both rings share `CircularBuffer` and `TimeWindow`.
* **Signals and backtest.** `BayesianEngine` has the mirror theorem the backtester relies on; `Replay` detects
  the markets, replays one and runs the backtest.

Helpers: `Lanes` and `ByteLanes` (bits of words and bytes), `BitMask` (index masks), `RealMath` (the
transcendental functions, abstract, and products of reals), `Exchange`, `Ticks` and `Wrappers` (data).

## Findings

Where the code does not do what its text says, the model follows the code:

* The ring's header comment promises N - 1 usable slots; the full test allows N (`RingBuffer.RejectedIff`;
  `AllSlotsUsable` gives a run for every capacity).
* The mirror of the two markets of a window does not hold on every stream. It holds throughout a stream
  exactly if at every tick the division guard bites in both engines or in neither
  (`BayesianEngine.MirrorsIff`); mids that keep a margin from 0 and 1 are enough (`MirrorOverRuns`).
  `MirrorBreaksOnStream` gives four ticks that break it: a quote of 9.5e-11 and a strike far below the price,
  for any distribution whose tail beyond 2000 is at most 1e-12, as that of the code is.
* The late-fill path after the final cancel cannot be reached: without tracked orders a poll reports no fill
  (`OrderStateMachine.LateFillUnreachable`). The same poll puts fresh quotes on the book, and the machine goes
  idle without ever cancelling them, exactly when the old quotes are young, the mid has moved and the new
  quote is acceptable (`FinalCancelLeavesQuotesIff`, `ForgottenQuotesStay`; `Scenarios.FinalPassLeavesQuotes`).
* A maker fill clears the other side's id before cancelling. An order is dropped without a cancel exactly
  when a fill is polled while two different orders are tracked (`MakerArm.CancelsDroppedIff`;
  `Scenarios.AskLeftOnBook`).
* A position is released exactly by an evaluation before expiry that finds the machine closing with its
  close filled, cancelled or never given an id (`OrderStateMachine.ReleasesIff`, `RunReleasesIff`). So after
  expiry nothing is released, and each pass sends the whole hedge close again (`ExpiryStrandsPosition`;
  `Scenarios.HedgeClosedTwice`), and before it the accounts may be released although nothing was sold
  (`ReleasedWhenFilledIff`; `Scenarios.ReleasedUnsold`).
* An ask fill is valued at one minus the ask against the price it sold at, which is the short's own profit
  exactly for an entry at one half (`PositionManager.ShortValuedIff`). With the ask unmoved it is an early
  exit at its first evaluation at any price up to one half and a hard stop from 0.504 on
  (`MakerArm.AskFillAtEntryQuotes`).
* A machine that is not quoting may still have orders tracked: over a run that never happens exactly if no
  flatten finds it quoting with orders and no final cancel quotes anew (`OrderStateMachine.NeverStrayIff`,
  `StrayIff`). Past expiry nothing is cancelled at all (`ExpiryKeepsQuotes`).
* An ask fill is a short position, yet its close sells again: entry and close cancel out exactly for long
  entries (`OrderStateMachine.CloseCancelsEntryIff`; `Scenarios.AskFillSoldTwice`).
* A machine retired with an open position leaves its cost and its one in the shared totals for good; it
  leaves nothing exactly if its position was closed (`SharedAccounts.RetiredHoldsForever`;
  `StaleReads.RetiredWhileOpen`).
* The limit of three open positions is looked at only when a machine engages; any number can be open at once
  (`OpenLimit.LimitNotEnforced`). With at most E machines engaged at a time the most is 2 + E, and it is
  attained, so the limit holds exactly for E = 1 (`OpenAtMost`, `BoundAttained`, `LimitHoldsIff`).
* The total exposure cap holds over every interleaving in which no machine about to fire reads an exposure
  that is too low, in particular if none reads less than what the open positions hold
  (`ExposureCap.ExposureWithinCap`, `FullReadingsAreSafe`). A reading is too low exactly if the largest entry
  it allows does not fit, and then some prices and replies break the cap (`UnsafeReadingBreaksIff`;
  `StaleReads.StaleReadsPassCap`).
* The trailing stop never fires, live or in a replay: break-even already exits
  (`PositionManager.NoTrailingStopBeforeExit`).
* A failed taker attempt unwinds the shares but leaves a hedge that was filled below 99 per cent
  (`TakerArm.HedgeLeftIff`; `Scenarios.PartOfHedgeLeft`).
* An entry hedged with less than a thousandth of a Bitcoin (between 99 and 100 per cent of the least that is
  asked for) is never unwound: its close sends no hedge order (`MachineConduct.CloseUndoesHedgeIff`).
* The stake divides the edge by the odds, as the bot's own documentation writes it. That is a quarter of
  Kelly's stake times the market probability, so it is a quarter of Kelly's only if nothing is staked
  (`Sizing.StakeIsKellyTimesMarket`).
* The nonce counter is increasing only until it wraps (`NonceManager.DecreasesIffWraps`, `WrapBreaksOrder`).

## Model

| member | source | states |
|---|---|---|
| KeccakRefinesFips.ThetaIsFips | src/crypto/keccak256.hpp:44-50 | the column-parity step, on every state, is theta of FIPS 202 section 3.2.1 |
| KeccakRefinesFips.RotationTable | src/crypto/keccak256.hpp:36-39 | the t-th rotation amount of the cycle is (t + 1)(t + 2) / 2 modulo 64 |
| KeccakRefinesFips.CycleReadsThroughPi | src/crypto/keccak256.hpp:31-34 | each step of the in-place cycle writes the lane that pi of section 3.2.3 fills from the lane held in the temporary |
| KeccakRefinesFips.WalkRotatesEachLane | src/crypto/keccak256.hpp:52-58 | the walk of section 3.2.2 visits every non-zero lane exactly once, at the step where the cycle holds it |
| KeccakRefinesFips.RhoPiIsFips | src/crypto/keccak256.hpp:51-58 | the fused 24-cycle equals pi after rho of sections 3.2.2 and 3.2.3 |
| KeccakRefinesFips.ChiIsFips | src/crypto/keccak256.hpp:59-64 | the row-buffer loop equals chi of section 3.2.4 |
| KeccakRefinesFips.RoundConstantIsFips | src/crypto/keccak256.hpp:16-29 | each of the 24 constants is the word the shift register of section 3.2.5 produces for that round |
| KeccakRefinesFips.RoundsAreFips | src/crypto/keccak256.hpp:43-67 | the first n coded rounds equal the first n rounds of KECCAK-f[1600], for every state and n up to 24 |
| Keccak.KeccakF1600 | src/crypto/keccak256.hpp:15-68 | the in-place loop leaves exactly 24 rounds of the old contents in the array |
| Keccak.ThetaInPlace | src/crypto/keccak256.hpp:45-50 | the array after the loop is the theta step of its old contents |
| Keccak.RhoPiInPlace | src/crypto/keccak256.hpp:52-58 | the array after the cycle is the fused rho and pi step of its old contents |
| Keccak.ChiInPlace | src/crypto/keccak256.hpp:60-64 | the array after the row loop is the chi step of its old contents |
| KeccakInjective.ParityKernel | src/crypto/keccak256.hpp:45-49 | a parity plane that equals its own theta effect is zero |
| KeccakInjective.ThetaInjective | src/crypto/keccak256.hpp:44-50 | two states with the same theta image are equal |
| KeccakInjective.RhoPiInjective | src/crypto/keccak256.hpp:51-58 | two states with the same image under the cycle are equal |
| KeccakInjective.ChiInjective | src/crypto/keccak256.hpp:59-64 | two states with the same chi image are equal |
| KeccakInjective.RoundsInjective | src/crypto/keccak256.hpp:43-67 | the first n coded rounds, for every n up to 24, send different states to different states |
| Keccak256.PadBlockBits | src/crypto/keccak256.hpp:90-94 | the final 136-byte block holds the remaining message bits followed by pad10*1 of section 5.1, also when both padding bits share a byte and when the remainder is empty |
| Keccak256.PaddedInjective | src/crypto/keccak256.hpp:78-94 | messages with the same padded block sequence are equal |
| Keccak256.AbsorbBlocksIsFips | src/crypto/keccak256.hpp:79-88 | absorbing n blocks by lanes equals absorbing them by bits as in section 4 |
| Keccak256.HashIsSponge | src/crypto/keccak256.hpp:73-107 | for every message the digest is the sponge of section 4 with 256 output bits |
| Keccak256.Keccak256 | src/crypto/keccak256.hpp:73-107 | the method over byte and lane buffers returns that digest |
| RingBuffer.SafeAfterAnySchedule | src/data/ring_buffer.hpp:39-57 | after any interleaving of the atomic steps, popped values are a prefix of accepted pushes, between 0 and N items are stored and the wrapped counters measure them, and the two threads are never in the same slot |
| RingBuffer.RejectedIff | src/data/ring_buffer.hpp:39-57 | a push is rejected exactly when N items are present as it reads the tail, a pop finds nothing exactly when no item is present as it reads the head |
| RingBuffer.AllSlotsUsable | src/data/ring_buffer.hpp:39-46 | for every capacity, N pushes in a row are accepted and the next is rejected |
| RingBuffer.FullIffNItems | src/data/ring_buffer.hpp:40-53 | the wrapped difference is N exactly with N items stored, and the counters are equal exactly with none |
| RingBuffer.PushKeeps | src/data/ring_buffer.hpp:39-46 | every atomic step of a push keeps the protocol invariant, wherever the consumer is |
| RingBuffer.PopKeeps | src/data/ring_buffer.hpp:50-57 | every atomic step of a pop keeps the protocol invariant, wherever the producer is |
| RingBuffer.ItemsAfterPush | src/data/ring_buffer.hpp:42-44 | an accepted push appends to the items in the ring, across a counter wrap too |
| RingBuffer.ItemsAfterPop | src/data/ring_buffer.hpp:53-55 | a pop removes the oldest item, across a counter wrap too |
| RingBuffer.SpscRingBuffer.Push | src/data/ring_buffer.hpp:39-46 | the uninterrupted call rejects a full ring and otherwise appends its value |
| RingBuffer.SpscRingBuffer.Pop | src/data/ring_buffer.hpp:50-57 | the uninterrupted call reports an empty ring and otherwise removes and returns the oldest value |
| RingBuffer.SpscRingBuffer.SizeApprox | src/data/ring_buffer.hpp:60-63 | with no call in progress the approximate size is the number of items |
| TickRecorder.DrainIsComplete | tools/tick_recorder/main.cpp:206-242 | for every interleaving with the feed's last pushes and its done flag, the file is always a prefix of the accepted ticks, and at exit it is all of them, the three counters sum to their number and the bytes are 64 times it |
| TickRecorder.EmptyMeansAllPopped | tools/tick_recorder/main.cpp:208 | when the drain sees the ring empty, everything accepted so far has been popped |
| TickRecorder.DrainExitsIff | tools/tick_recorder/main.cpp:206-225 | from any reachable state with the done flag up, in every schedule, the drain has left exactly when it has taken a computed number of steps of its own, at most nine for each slot and five |
| TickRecorder.CountsAddUp | tools/tick_recorder/main.cpp:212-219 | the three per-source counts of any tick sequence add up to its length |
| TickRecorder.ExitIsFinal | tools/tick_recorder/main.cpp:208-241 | once the drain has left, no later step of either thread pushes or writes anything |
| NonceManager.NoncesAreUnique | src/wallet/nonce_manager.cpp:32-48 | for every interleaving of increments and resync loops that does not wrap, handed-out nonces are pairwise distinct and at least the startup value, and a returned resync finds the counter at or above what it queried |
| NonceManager.StepKeeps | src/wallet/nonce_manager.cpp:32-48 | every step that does not wrap keeps the nonces increasing and the counter from going down, spurious exchange failures included |
| NonceManager.DecreasesIffWraps | src/wallet/nonce_manager.cpp:32-48 | the counter goes down exactly at an increment of the largest 64-bit value |
| NonceManager.WrapBreaksOrder | src/wallet/nonce_manager.cpp:32-34 | from the largest value two increments hand out nonces out of order |
| NonceManager.StepMoves | src/wallet/nonce_manager.cpp:32-48 | only a call hands out a nonce, the counter's; only it and an exchange that takes effect move the counter, by one and up to the queried value |
| NonceManager.NoncesAreConsecutive | src/wallet/nonce_manager.cpp:32-34 | while no exchange takes effect each call is handed the next number from the startup value on |
| NonceManager.Counter.ForceResync | src/wallet/nonce_manager.cpp:36-48 | alone, the loop ends with the larger of the counter and the queried value after any number of spurious failures |
| Decimal256.DivideByTen | src/execution/clob_client.cpp:108-113 | one pass of long division leaves the quotient in the limbs and returns the remainder, with every dividend below 2^128 and every quotient below 2^64 |
| Decimal256.Uint256ToDecimal | src/execution/clob_client.cpp:98-118 | the loop ends and returns the decimal digits of the value of the bytes |
| Decimal256.TimesTenPlus | src/execution/clob_client.cpp:240-246 | one pass of multiply-and-add computes ten times the value plus the digit, the last carry counting 2^256 |
| Decimal256.ParseTokenId | src/execution/clob_client.cpp:230-255 | returns the parse of the string, or the first error met |
| Decimal256.ParseSucceedsIff | src/execution/clob_client.cpp:232-247 | parsing succeeds exactly on non-empty digit strings below 2^256, and the bytes then have the decimal value |
| Decimal256.ScanReportsFirstFault | src/execution/clob_client.cpp:237-247 | the reported error is that of the first character that is no digit or takes the value to 2^256 |
| Decimal256.PrintThenParse | src/execution/clob_client.cpp:98-118 | parsing the printed form of any 256-bit value gives the value back |
| Decimal256.ParseThenPrint | src/execution/clob_client.cpp:230-255 | printing the value of an accepted string gives the string without leading zeros |
| Decimal256.PrintedLength | src/execution/clob_client.cpp:105-106 | every printed value fits the 78 reserved characters |
| Amounts.DoubleRoundTrip | src/types/amount.hpp:49-65 | an amount converted to a double and back is unchanged |
| Amounts.FromDoubleAtMost | src/types/amount.hpp:49-51 | rounding does not carry a value past a whole amount it does not exceed |
| Sizing.KellyWithinRoom | src/risk/sizing.hpp:14-32 | the rounded size is between zero and the trade cap, and if positive never exceeds the room under the total cap |
| Sizing.KellyFillsCaps | src/risk/sizing.hpp:18-31 | the size is the Kelly stake to the nearest micro-unit, or the smaller cap exactly once the stake reaches it |
| Sizing.HedgeWithinCaps | src/risk/sizing.hpp:36-43 | the hedge is worth the Polymarket leg or five per cent of the bankroll, whichever is less |
| Sizing.GrowthOptimalIff | src/risk/sizing.hpp:17-20 | betting a fraction at the market's odds maximises expected logarithmic growth exactly if it is the edge over the market's losing probability |
| Sizing.StakeIsKellyTimesMarket | src/risk/sizing.hpp:17-21 | the stake is a quarter of that fraction of the bankroll times the market probability, and a quarter of it exactly if nothing is staked |
| PositionManager.TrailingArmedIff | src/execution/position_manager.cpp:36-70 | over any evaluations of one position with non-negative edge, trailing is armed exactly if the maximum profit reached the trigger, and the stored peak is then that maximum |
| PositionManager.NoTrailingStopBeforeExit | src/execution/position_manager.cpp:36-70 | if every earlier verdict was to hold, the position is still unarmed and the next verdict is not a trailing stop |
| PositionManager.HoldsBetween | src/execution/position_manager.cpp:43-69 | an unarmed position is held exactly from the hard stop up to break-even, stopped below and exited above |
| PositionManager.Manager.Evaluate | src/execution/position_manager.cpp:36-70 | updates peak and arming and returns the verdict as on values |
| PositionManager.PnlOrdered | src/execution/position_manager.cpp:20-34 | a better exit price or a lower Bitcoin price never lowers the rounded profit of long shares with a short hedge |
| PositionManager.PnlIs | src/execution/position_manager.cpp:20-34 | the profit is, to a micro-unit, what the shares bring over their cost plus what the hedge was sold for over buying it back |
| PositionManager.LevelsAre | src/execution/position_manager.cpp:36-70 | stop, trigger and floor are minus one and a half and one half of the expected edge and seven tenths of the peak |
| PositionManager.PnlZeroAtEntryPrice | src/execution/position_manager.cpp:20-34 | if the shares exit at their entry price and the Bitcoin price has not moved, or without a hedge, the profit is zero |
| PositionManager.PnlAtEntryQuotes | src/execution/position_manager.cpp:23-34 | with the ask still at the entry price a long is down by the spread on every share, a short shows one minus twice its price on every share |
| PositionManager.ShortValuedIff | src/execution/position_manager.cpp:23-30 | at any quotes the value taken for a short leg is its own profit exactly if it was entered at one half |
| TakerArm.SizeIs | src/risk/sizing.hpp:14-32 | an attempt is sized at a quarter of edge times market over losing probability of the bankroll, or at the smaller of 200 USDC and the room under 400, or at zero |
| TakerArm.HedgeIs | src/execution/taker_arm.cpp:47-49 | the hedge asked for is worth that size or five per cent of the bankroll, whichever is less |
| TakerArm.HedgeOpposesMarket | src/execution/taker_arm.cpp:93-101 | every attempt that submits both legs buys shares first and then sends a hedge short for an above market and long for a below market, priced a tenth of a per cent through the mid |
| TakerArm.HedgeHeld | src/execution/taker_arm.cpp:93-132 | the signed Bitcoin held after an attempt, read from its orders, is zero without both legs or after the unwind of a filled hedge, and otherwise what was executed, short exactly for an above market |
| TakerArm.SuccessRecords | src/execution/taker_arm.cpp:56-148 | a success offered its whole size for all the shares that buys at the ask, and records them, the price, the edge, and the hedge as executed |
| TakerArm.SucceedsIff | src/execution/taker_arm.cpp:36-149 | an attempt succeeds exactly if size, hedge and ask pass their gates, the order is accepted with an id and at least 99 per cent of the hedge is filled; the zero-share guard never decides |
| TakerArm.SuccessBooksItsSize | src/execution/taker_arm.cpp:44-62 | a successful entry's shares times price is exactly its size, at least 1 USDC, within the trade cap and within the room it was sized against |
| TakerArm.SharesUnwound | src/execution/taker_arm.cpp:104-148 | after an attempt that did not succeed the orders sent cancel out in shares, after a success they leave exactly the entered shares |
| TakerArm.HedgeLeftIff | src/execution/taker_arm.cpp:100-132 | an attempt fails and leaves a hedge behind exactly if both legs were submitted and some of the hedge was executed but not enough to count as filled |
| Scenarios.PartOfHedgeLeft | src/execution/taker_arm.cpp:100-123 | an attempt with a quarter of its hedge executed that fails and keeps the quarter |
| TakerArm.Arm.FireLegs | src/execution/taker_arm.cpp:36-150 | the sequential steps give that outcome and move the entry time only on success |
| MakerArm.FillBooksQuoteSize | src/execution/maker_arm.cpp:106-124 | a fill is booked at exactly the quote size whatever average price is reported, with a non-negative edge |
| MakerArm.AskFillAtEntryQuotes | src/execution/maker_arm.cpp:106-124 | evaluated with the ask still at its price, an ask fill is an early exit exactly if one minus twice the price on its shares does not round below zero, so up to one half, and a hard stop from 0.504 on |
| MakerArm.QuoteOrdersAre | src/execution/maker_arm.cpp:24-93 | inside the boundaries a quote submits a buy half a cent below and a sell half a cent above the price, each of 100 USDC for all the shares it pays for; outside them nothing |
| MakerArm.QuotedIff | src/execution/maker_arm.cpp:74-93 | a quote succeeds exactly inside the boundaries with a side accepted, and tracks the accepted sides, the mid, the price and the time |
| MakerArm.ManagedIff | src/execution/maker_arm.cpp:126-161 | each verdict of managing the quotes is characterised by their age, a move of half a basis point, the new quote and the polled orders, with what is cancelled and submitted |
| MakerArm.FillRecords | src/execution/maker_arm.cpp:106-124 | a bid fill is a long and an ask fill a short entry at the reported or else the quoted price, worth 100 USDC, unhedged, with half a cent of edge a share |
| MakerArm.QuoteIsSound | src/execution/maker_arm.cpp:74-93 | tracked orders were always quoted inside the price boundaries; a failed quote tracks nothing |
| MakerArm.NoFillAfterCancel | src/execution/maker_arm.cpp:95-161 | right after cancelling, managing the quotes never reports a fill |
| MakerArm.QuotesAfterCancel | src/execution/maker_arm.cpp:126-143 | orders are tracked after cancel and manage exactly if the quotes were young, the mid had moved past the threshold, and a quote around the model price was inside the boundaries and accepted with an id on some side |
| MakerArm.FillForgetsOtherSide | src/execution/maker_arm.cpp:145-161 | a fill is reported exactly if the quotes are young, the mid has not moved and a tracked order is reported filled, the bid first; then nothing is tracked and only the filled order was sent a cancel |
| MakerArm.CancelsDroppedIff | src/execution/maker_arm.cpp:126-161 | every order that stops being tracked was sent a cancel, except exactly when a fill is polled while two different orders are tracked |
| Scenarios.AskLeftOnBook | src/execution/maker_arm.cpp:149-153 | a bid fill after which the ask is neither tracked nor sent a cancel |
| MakerArm.Arm.ManageQuotes | src/execution/maker_arm.cpp:126-161 | the object's call gives the outcome on values |
| MakerArm.Arm.Quote | src/execution/maker_arm.cpp:74-93 | cancels what was tracked and leaves the quote on values |
| OrderStateMachine.StepKeeps | src/execution/order_state_machine.cpp:55-340 | every step keeps a position open exactly in POSITION_OPEN and CLOSING and moves the shared accounts exactly when one opens or closes, by its shares times entry price |
| OrderStateMachine.OpeningsReleasedOnce | src/execution/order_state_machine.cpp:139-288 | over every run openings and releases alternate, each release for exactly the amount its opening added |
| OrderStateMachine.LateFillUnreachable | src/execution/order_state_machine.cpp:187-200 | with the quotes cancelled the handler always goes idle and never reaches the late-fill path |
| OrderStateMachine.NeverTrails | src/execution/order_state_machine.cpp:179-184 | an open position is never exited for the trailing stop, and one that is held is unchanged |
| OrderStateMachine.TakerEntriesApart | src/execution/order_state_machine.cpp:123-126 | successful taker entries of one machine are at least thirty seconds apart |
| OrderStateMachine.FirstLateEvaluation | src/execution/order_state_machine.cpp:55-83 | the first evaluation in the last 45 seconds lands in IDLE, POSITION_OPEN or CLOSING with both flags set |
| OrderStateMachine.WindDownStep | src/execution/order_state_machine.cpp:55-83 | from there every step keeps that, opens nothing and never moves up from IDLE through CLOSING to POSITION_OPEN; in the last 30 seconds it also leaves POSITION_OPEN |
| OrderStateMachine.WindDownHolds | src/execution/order_state_machine.cpp:34-83 | the same over every later run, flatten requests and notifications included |
| OrderStateMachine.FinalCancelLeavesQuotesIff | src/execution/order_state_machine.cpp:187-200 | a quoting machine evaluated in the last 45 seconds goes idle with both flags set, and orders are left tracked exactly if its quotes were young, the mid had moved and a new quote was acceptable |
| OrderStateMachine.ForgottenQuotesStay | src/execution/order_state_machine.cpp:105-137 | once wound down, over every later run the arm's tracked orders stay as they are, so none is sent a cancel |
| Scenarios.FinalPassLeavesQuotes | src/execution/order_state_machine.cpp:187-200 | a pass at 44 seconds that leaves two fresh orders which no later run cancels |
| OrderStateMachine.StrayStepIff | src/execution/order_state_machine.cpp:34-83 | after a step orders are tracked outside quoting exactly if it was a flatten while quoting with orders or a final cancel that quotes anew, or they were so before and the step does not quote from idle |
| OrderStateMachine.StrayIff | src/execution/order_state_machine.cpp:34-233 | a run from a fresh machine ends so exactly if some step stranded orders and no later step quoted from idle |
| OrderStateMachine.NeverStrayIff | src/execution/order_state_machine.cpp:34-233 | at no point of a run are orders tracked outside quoting exactly if no step strands them |
| OrderStateMachine.ExpiryKeepsQuotes | src/execution/order_state_machine.cpp:69-73 | evaluated only after expiry, the arm's orders stay as they are |
| OrderStateMachine.ReleasesIff | src/execution/order_state_machine.cpp:264-288 | a step releases the accounts exactly if it evaluates a closing machine before expiry whose close has no id or is filled or cancelled |
| OrderStateMachine.RunReleasesIff | src/execution/order_state_machine.cpp:34-83 | a run releases something exactly if some of its steps finds that condition |
| OrderStateMachine.ReleasedWhenFilledIff | src/execution/order_state_machine.cpp:264-288 | a closing machine is released exactly when its close was filled, except exactly if the close had no id or was cancelled |
| Scenarios.ReleasedUnsold | src/execution/order_state_machine.cpp:279-287 | from any open position two passes release the accounts although no close order was accepted |
| OrderStateMachine.CloseCancelsEntryIff | src/execution/order_state_machine.cpp:301-319 | entry and close cancel out in shares, to less than a unit, exactly for a long entry whose close is sent (or an entry below a unit); a short entry is sold again |
| Scenarios.AskFillSoldTwice | src/execution/order_state_machine.cpp:301-319 | an ask fill at one half whose close doubles the shares sold |
| OrderStateMachine.ExpiryStrandsPosition | src/execution/order_state_machine.cpp:69-73 | evaluated only after expiry, an open position is never released, and the hedge quantity sent for closing is the position's times the number of passes |
| Scenarios.HedgeClosedTwice | src/execution/order_state_machine.cpp:69-73 | a run from a fresh machine that enters, is evaluated twice after expiry, sends its hedge close twice and releases nothing |
| MachineConduct.OpenPassIff | src/execution/order_state_machine.cpp:166-185 | an open machine evaluated before expiry stays open exactly with more than 30 seconds left, no close flag up and a loss within the stop; otherwise it turns to closing and its orders sell the shares and undo the hedge |
| MachineConduct.IdlePassIff | src/execution/order_state_machine.cpp:105-137 | an idle machine turns to the taker or to quoting exactly under the stated clock, count, edge, cooldown, regime and quote conditions |
| MachineConduct.FiringPassIff | src/execution/order_state_machine.cpp:139-164 | a machine about to fire opens exactly the entry of a successful attempt at its cost, and otherwise goes idle |
| MachineConduct.QuotingPassIff | src/execution/order_state_machine.cpp:187-233 | where a quoting machine goes, exactly, by deadline, taker edge, age, move and fills, with the fill's position at 100 USDC |
| MachineConduct.ClosingPassIff | src/execution/order_state_machine.cpp:264-288 | a closing machine lets go of its position and its cost exactly if the close has no id or is over |
| MachineConduct.ExpiredPass | src/execution/order_state_machine.cpp:69-73 | after expiry an open machine sends its closing orders and any other stands still |
| MachineConduct.FlattenPass | src/execution/order_state_machine.cpp:34-40 | a flatten closes out an open position and leaves any other machine idle |
| MachineConduct.DeadlinesIff | src/execution/order_state_machine.cpp:58-67 | an evaluation leaves each flag up exactly if it was or its deadline has come |
| MachineConduct.CloseUndoesHedgeIff | src/execution/order_state_machine.cpp:327-334 | the close of a taker entry brings the Bitcoin executed at entry back to zero exactly if at least a thousandth was executed |
| OsmObject.Machine.Evaluate | src/execution/order_state_machine.cpp:55-83 | the object and the shared accounts end where the transition on values says |
| OsmObject.Machine.HandleIdle | src/execution/order_state_machine.cpp:105-137 | as the handler on values, reading the live count |
| OsmObject.Machine.HandleTakerEval | src/execution/order_state_machine.cpp:139-164 | as the handler on values, adding the entry's cost and one to the accounts on success |
| OsmObject.Machine.HandlePositionOpen | src/execution/order_state_machine.cpp:166-185 | as the handler on values: deadlines first, then the position's verdict |
| OsmObject.Machine.HandleMakerQuoted | src/execution/order_state_machine.cpp:187-233 | as the handler on values, adding a fill's cost and one to the accounts |
| OsmObject.Machine.HandleClosing | src/execution/order_state_machine.cpp:264-288 | as the handler on values, subtracting the position's cost and one when the close is done |
| OsmObject.Machine.ClosePosition | src/execution/order_state_machine.cpp:290-340 | as the function on values; the accounts do not move |
| SharedAccounts.StepConserves | src/main.cpp:85-126 | creating, passing, committing one update and retiring all keep both balances between the totals, the updates in flight and the open positions |
| SharedAccounts.TotalsMatchPositions | src/execution/order_state_machine.cpp:139-288 | over every interleaving of any number of machines the exposure and count are the sums over open positions of all machines, retired ones too, up to updates in flight, and each machine's ledger is paired |
| SharedAccounts.RetiredHoldsForever | src/main.cpp:110-126 | in every later state the settled totals equal what the other machines hold exactly if the retired machine's position was closed; if it was open they exceed it by its cost, at least 1 USDC, and by one |
| StaleReads.RetiredWhileOpen | src/main.cpp:110-126 | a run of one machine, retired with an open position, after which the totals hold 200 USDC and one for good |
| ExposureCap.ExposureWithinCap | src/risk/sizing.hpp:23-30 | over every interleaving in which each pass of a machine about to fire reads an exposure whose largest entry fits, the settled exposure is at most 400 USDC plus 100 USDC for each open maker position |
| ExposureCap.FullReadingsAreSafe | src/execution/order_state_machine.cpp:142-146 | that is so in every interleaving in which those passes never read less than what the open positions hold |
| ExposureCap.UnsafeReadingBreaksIff | src/execution/order_state_machine.cpp:142-156 | for a machine about to fire under the cap, some prices, bankroll and replies break the cap exactly if the largest entry for the exposure it reads does not fit |
| ExposureCap.SerialExposureWithinCap | src/risk/sizing.hpp:23-30 | over every serialised run the exposure total itself stays within that bound |
| ExposureCap.BookedFrom | src/execution/order_state_machine.cpp:139-156 | every opening is a taker entry at its rounded size within the room, or a maker fill at the quote size |
| SerialPasses.PassNowIsSteps | src/execution/order_state_machine.cpp:151-154 | a serialised pass is a pass followed by its two commits in the concurrent model |
| StaleReads.StaleReadsPassCap | src/execution/order_state_machine.cpp:142-156 | for every n, an interleaving in which n machines read an exposure of zero before any commits leads to an exposure of n times 200 USDC |
| OpenLimit.EngageOrOpen | src/execution/order_state_machine.cpp:115-126 | an idle machine engages only if it reads a count below three, and a position opens only by giving up an engagement |
| OpenLimit.OpenAtMost | src/execution/order_state_machine.cpp:115-116 | over every interleaving in which idle machines never read a count below the open positions and at most E machines are engaged at a time, at most 2 + E positions are open |
| OpenLimit.SerialOpenAtMost | src/execution/order_state_machine.cpp:115-116 | the same bound on the count itself over every serialised run |
| OpenLimit.BoundAttained | src/execution/order_state_machine.cpp:115-116 | for every E from one a serialised run with at most E engaged ends with 2 + E open positions |
| OpenLimit.LimitHoldsIff | src/execution/order_state_machine.cpp:115-116 | the limit of three holds over all serialised runs with at most E machines engaged exactly if E is one |
| OpenLimit.LimitNotEnforced | src/execution/order_state_machine.cpp:187-223 | for every n a serialised run leads to n open positions |
| MarketScanner.TraceIsPrefix | src/data/market_scanner.cpp:201-313 | over every run with a running clock and fixed end date, an id's events are a prefix of the five in order, none before its deadline, and after removal the id is never known again |
| MarketScanner.CheckFiresDue | src/data/market_scanner.cpp:279-313 | right after a check a known market has fired exactly the events whose deadlines passed |
| MarketScanner.KnownIff | src/data/market_scanner.cpp:191-313 | over every run an id is known exactly if some scan listed it as eligible and no check since then found it more than a minute past its end |
| MarketScanner.Scanner.CheckLifecycle | src/data/market_scanner.cpp:279-317 | the loop over the map, in any order, moves every id by the one-id step and erases the removed ones |
| MarketScanner.Scanner.Consider | src/data/market_scanner.cpp:191-244 | a row admits its id exactly if unknown, eligible and not past its end date, and touches no other id |
| RollingVol.WindowIsExact | src/signal/regime.cpp:6-41 | for samples in time order the ring holds exactly the log returns among the newest 2048 that are at most sixty seconds older than the latest accepted sample |
| RollingVol.RollingVolState.Update | src/signal/regime.cpp:6-41 | the ring follows the transition on sequences, and the running sums stay equal to the sums over its contents |
| RollingVol.RollingVolState.RealizedVol | src/signal/regime.cpp:43-52 | the value from the running sums is the one recomputed from the contents |
| RollingVol.VarianceIsMeanSquare | src/signal/regime.cpp:46-48 | the computed variance is the mean squared deviation from the mean, so it is never negative and n times the sum of squares is at least the square of the sum |
| RollingVol.VolSquared | src/signal/regime.cpp:43-52 | the square of the volatility times the number of returns is the sum of their squared deviations |
| RollingVol.RegimeIs | src/signal/regime.cpp:54-60 | the regimes cut the volatility at 0.15, 0.5 and 1.5 per cent |
| RollingVol.VolZeroIff | src/signal/regime.cpp:43-52 | the volatility is never negative, and zero exactly with fewer than two returns or all returns equal |
| Watchdog.SpikeCheckExact | src/risk/watchdog.cpp:81-103 | with evaluations half a second apart on a running clock, the check fires exactly if two of all prices recorded in the last sixty seconds differ by more than 1.5 per cent |
| Watchdog.RecordAppends | src/risk/watchdog.cpp:123-131 | under the same pacing a new sample never overwrites one still in the window |
| Watchdog.SpikeTripsIff | src/risk/watchdog.cpp:94-102 | the scan of lowest and highest decides whether some pair of samples is that far apart |
| Watchdog.TripsOnceForGood | src/risk/watchdog.cpp:43-47 | over every run the kill switch is set exactly by a trip and never cleared, each flatten callback runs at most once, and a tripped watchdog does not change |
| Watchdog.TripsIff | src/risk/watchdog.cpp:53-121 | in every run not yet tripped the next evaluation trips exactly on a losing streak, two prices of the last minute too far apart, a drawdown of more than eight per cent within the hour, or less than half the first bankroll |
| Watchdog.DrawdownWindow | src/risk/watchdog.cpp:105-121 | the drawdown is judged against the bankroll at a past evaluation or at the start, less than an hour old |
| Watchdog.RiskWatchdog.Evaluate | src/risk/watchdog.cpp:53-67 | the object over its circular buffer ends where the evaluation on values says |
| Watchdog.RiskWatchdog.CheckBtcSpike | src/risk/watchdog.cpp:81-103 | eviction, scan and trip as on values |
| Watchdog.RiskWatchdog.RecordBtc | src/risk/watchdog.cpp:123-131 | appends, or replaces the oldest sample of a full buffer |
| BayesianEngine.MirrorOverRuns | tools/bt_runner/main.cpp:246-256 | for every tick stream an above engine and a below engine on the flipped stream keep prior, published and market probabilities complementary and bid and ask swapped complements, if mids keep a margin from 0 and 1 |
| BayesianEngine.TickMirrors | src/signal/bayesian_engine.cpp:37-82 | one tick of any source keeps the mirror |
| BayesianEngine.PosteriorsComplement | src/signal/bayesian_engine.cpp:92-108 | with complementary priors and likelihoods and reciprocal boosts the two clamped posteriors add up to one |
| BayesianEngine.PosteriorsComplementIff | src/signal/bayesian_engine.cpp:104-109 | without a margin they do so exactly if both or neither evidence falls under the guard |
| BayesianEngine.GuardBreaksMirror | src/signal/bayesian_engine.cpp:105-106 | with certain likelihoods a prior near zero for which they do not |
| BayesianEngine.TickMirrorsIff | src/signal/bayesian_engine.cpp:37-106 | without a margin one tick keeps the mirror exactly if the guard bites while it is processed in both engines or in neither |
| BayesianEngine.MirrorsIff | src/signal/bayesian_engine.cpp:104-106 | for every tick stream and length the two engines are mirrored at every point exactly if at every tick the guard bites in both or in neither |
| BayesianEngine.MirrorBreaksOnStream | src/signal/bayesian_engine.cpp:104-110 | a stream of four ticks after which the above engine publishes 0.99 and the below engine, guarded off, still one half, for every distribution within 1e-12 of one beyond 2000 and the logarithm and root as they are |
| BayesianEngine.LikelihoodsComplement | src/signal/likelihood.cpp:104-129 | the likelihoods of the two sides add up to one through every guard |
| BayesianEngine.EdgesOpposite | tools/bt_runner/main.cpp:313-316 | the below market's edge is the negative of the above market's at every point of a mirrored run |
| BayesianEngine.PublishedInside | src/signal/bayesian_engine.cpp:37-111 | on any input the published probability stays in [0.01, 0.99] and prior and market probability strictly between 0 and 1 |
| BayesianEngine.ResetsExact | src/signal/bayesian_engine.cpp:49-67 | over every stream the prior is reset exactly by the first quote and each quote thirty seconds after the last reset, and other quotes leave it |
| BayesianEngine.StreamShown | src/signal/bayesian_engine.cpp:37-82 | over every stream the engine shows the latest prices and quote and the volatility and regime of the Binance window |
| BayesianEngine.TickUpdates | src/signal/bayesian_engine.cpp:37-82 | which ticks update, on what: a Binance price on the window it brings, a Coinbase price against the one before it, a quote never |
| BayesianEngine.UpdateIsBayes | src/signal/bayesian_engine.cpp:84-111 | an update makes the posterior odds the prior odds times likelihood ratio times boost, clipped, for the distribution at the standardised distance and the side the market pays on |
| BayesianEngine.AuxIs | src/signal/bayesian_engine.cpp:113-134 | the adjustment is the sum of three clipped terms: funding, book imbalance and the lead over the last Coinbase price, with their signs |
| BayesianEngine.SignalEngine.ProcessTick | src/signal/bayesian_engine.cpp:37-82 | the object ends where the transition on values says |
| BayesianEngine.SignalEngine.RunBayesianUpdate | src/signal/bayesian_engine.cpp:84-111 | as the update on values, guards included |
| Replay.ReplayMarket | tools/bt_runner/main.cpp:190-358 | for any sorted stream a flat market enters at exactly the first tick after its last exit that allows it, a Binance tick outside the spike regime, at the engine's published ask for the Kelly size and hedge; the position is closed exactly once, at the first tick within thirty seconds of resolution or with an exit verdict, at the published bid, or, past resolution or at the stream's end, by the outcome at the last price; exposure returns to its start and the clamp never acts, the bankroll moves by the sum of trade profits, entries lie in [open, resolution - 120 s) thirty seconds apart, exits follow entries, expiry needs a silent last thirty seconds, and no verdict is a trailing stop |
| Replay.CloseBooks | tools/bt_runner/main.cpp:218-241 | closing takes back exactly the exposure the entry added and settles the trade |
| Replay.EnterBooks | tools/bt_runner/main.cpp:330-348 | entering adds exactly the entry's cost |
| Replay.Backtest | tools/bt_runner/main.cpp:470-494 | the trades are one segment for each market: a replay on exactly the ticks from two minutes before its opening to its resolution, from the bankroll the earlier ones left; exposure ends at zero |
| Replay.AllowedExactly | tools/bt_runner/main.cpp:293-328 | an entry is allowed at a tick exactly under the stated source, time, regime, interval, edge, size, hedge and ask conditions |
| Replay.KeepsIff | tools/bt_runner/main.cpp:262-291 | an open position is kept at a tick exactly with more than thirty seconds left and a loss within the stop |
| Replay.FeedIs | tools/bt_runner/main.cpp:196-258 | the engine of a market is fed every tick, flipped for a below market, without funding, against its strike and resolution |
| Replay.PairMirrors | tools/bt_runner/main.cpp:246-256 | at every tick the two replays of a window see complementary probabilities and swapped quotes |
| Replay.NeverBothAllowed | tools/bt_runner/main.cpp:293-316 | at a tick where the mirror holds the two markets of a window never both allow an entry, whatever their bankrolls and earlier entries |
| Replay.NeverBothAllowedInside | tools/bt_runner/main.cpp:246-316 | so at no tick of a stream whose mids keep a margin from 0 and 1 |
| Replay.FirstAtOrAfter | tools/bt_runner/main.cpp:476-482 | the search returns the first tick not before the time |
| Replay.FirstAfter | tools/bt_runner/main.cpp:484-490 | the search returns the first tick past the time |
| Replay.DetectMarkets | tools/bt_runner/main.cpp:149-184 | one above and one below market for each five-minute boundary from the first after the first price to the last whose window the prices cover, struck at the last price at or before the opening |

## Left out

* HTTP, WebSocket, JSON, curl and the wire parsers: exchange replies and scan rows are arbitrary values.
* OpenSSL, secp256k1, HMAC, JWT, key storage and the EIP-712 word layout: foreign code or plain layout; orders are their side and amounts.
* Floating-point rounding: prices, probabilities and totals are reals, so shares times price is exactly the size.
* The Student-t distribution function and its continued fraction: abstract, with its range in [0, 1] a premise of the mirror lemmas, because line 71 of src/signal/likelihood.cpp adds a term the standard normalisation subtracts, and its tail from 2000 on a premise of `MirrorBreaksOnStream`. `exp`, `log` and `sqrt` are abstract with the laws in `RealMath`.
* Memory orders weaker than the written acquire and release pairs: the interleaved steps are sequentially consistent.
* Overflow when a size divided by a very small price is converted to 64 bits in src/execution/taker_arm.cpp and src/execution/maker_arm.cpp: share amounts are unbounded.
* One evaluation of the order state machine reads each shared value once in the machine and once in an arm, not once per load; the state shown by `state()` changes before the accounts do.
* The map from condition ids to machines in src/main.cpp: machines are created and retired one by one, at any time between passes.
* The calibration table, Sharpe ratio, CSV and console output, market ids, logger, metrics and heartbeat: reporting.
* The midnight rebate check, token lists and incentive parameters of the scanner, and pagination: no logic beyond a comparison.
* `Amount::to_string`, integer scaling and division of amounts: used for display only.
* The funding feed: the rate is an argument of each tick, and zero in the backtest as in the source.
- NonceManager.NoncesAreUnique: assumes the 64-bit counter does not wrap during the run; DecreasesIffWraps says what a wrap does.
- OrderStateMachine.TakerEntriesApart: assumes a monotonic clock that starts above zero, as the steady clock is.
- Watchdog.SpikeCheckExact: assumes evaluations at least half a second apart and a wall clock that does not go back.
