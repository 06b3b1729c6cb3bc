# Verification model of the nofomo trading daemon

The daemon watches prices, turns standing rules ("levels") into orders, and drives each order through sign, broadcast
and receipt until it is filled, failed or parked. This project models the parts of it whose correctness is arithmetic
or protocol, and proves what those parts are for. `dafny verify dfyconfig.toml` checks all of it.

**Swap engine** (`SwapMath`, `CurveBounds`, `SwapStep`, `SwapMachine`, `SwapWalk`, `SwapTrade`, `SwapTheorems`,
`SwapGuarantees`, `SwapFills`, `SwapPosition`, `SwapRoundTrip`, `SwapSplit`, `SwapExactOut`). The Q64.64
concentrated-liquidity swap. `SwapMath` writes the code's functions with their machine arithmetic: U256 intermediates
reduced modulo 2^256, 128-bit sums modulo 2^128 as in the release build, checked conversions as errors; division and
reduction are written by subtraction and shown to be the usual ones. `SwapWalk.ComputeSwap` is the loop. `CurveBounds`
holds the independent reference: two relations, "this input covers this move" and "this move affords this output", in
unbounded integers. The code's rounded formulas are shown to be the least and greatest solutions of these relations,
and everything about whole swaps (conservation, price bound, monotonicity, round trip, splitting, exactly which
amounts fill) is proved from them.

**Order lifecycle** (`OrderIds`, `OrderMachine`, `DriveOrder`, `TriggerTick`, `Sweeping`, `Lifecycle`, `RowInvariant`,
`LedgerInvariant`, `LifecycleTheorems`, `Settlement`, `RetryTiming`, `DoubleLanding`, `SwitchSchedule`). The state
machine, the imperative loops over a mutable order table (`DriveOrder.DriveOrder`, `Sweeping.Sweep`,
`TriggerTick.HandleTick`, operator release), and a step system in which trigger, sweeper, operator, restarts, lost and
unsure writes, and the chain interleave. Rows are durable; snapshots and working copies are lost on restart. The
history components of the step system (attempts, transmissions, how attempts ended, times of failed sends) are read by
no step. Clock readings are arbitrary: the system clock may be set back, and only `RetryTiming.FailuresAreSpaced`
assumes that it is not. The imperative loops are tied to the step system by `Sweeping.PassIsRun`,
`Sweeping.SweepIsRun`, `TriggerTick.TickIsAdmitted` and `TriggerTick.TickIsPlacements`.

**Digit strings** (`Positional`, `LittleEndian`, `DecimalText`, `HexQuantity`, `Slippage`, `DecimalNumber`,
`DecimalOrder`, `Units`). Hex and decimal conversion, slippage, comparison, multiplication, parsing and formatting of
token amounts as text, each against the number or rational the text denotes.

**Market store** (`MarketStore`). Markets and levels as conditional writes, with validation running between reading a
market and writing a level.

**Liquidity chart** (`LiquidityProfile`, `ChartSign`). The chart's walk over ticks on both sides of the current price,
and swaps with the chart's sign beside swaps with the engine's.

## What the proofs turned up

- The fee can swallow an amount whole: one base unit never fills on a pool with a fee (`SwapFills.OneUnitNeverFills`),
  and a swap also fails when it runs out inside a range with a rest the fee swallows. `SwapFills.SwapFillsIff` gives
  the exact condition, computable before the call. Conservation is not at risk: a swap that succeeds reports exactly
  the requested input.
- The swap engine adds a tick's net liquidity when the price falls and subtracts it when the price rises
  (crates/cetus/src/swap_math.rs:387-392); the chart of the graph crate does the opposite
  (crates/graph/src/lib.rs:547-563). Both are modelled as written; the engine takes the nets as they stand on chain
  (crates/cetus/src/pool.rs:227-238). `ChartSign.EngineCrossesOppositely` shows they agree only on ticks with zero
  net; `ChartSign.SignsAgreeBeforeNet` and `ChartSign.SignsPartAtNet` say how far a whole swap is the same under
  either sign and what it has spent when they part.
- The 256-bit shift inside get_delta_a drops bits once liquidity times price gap reaches 2^192, and can then report a
  range as costing nothing (`SwapMachine.DeltaACanVanish`); below liquidity 2^96 it never does. No other intermediate
  of the two deltas can lose anything (`SwapMachine.DeltaAOnAnyInput`, `SwapMachine.DeltaBOnAnyInput`).
- A comment says a blocked send leaves nothing to retry (crates/orchestrator/src/machine.rs:198). If an earlier daemon
  start allowed broadcasting and a later one does not, the order can fail as blocked although its swap is on its way
  or has landed, and its level is free again. If a still later start allows broadcasting once more, a second swap of
  the level can land too, with no timeout and no operator involved. `SwitchSchedule.DoubleLandingIffOnOffOn` shows
  that this is exact: it can happen if and only if the switch is on at some start, off at a later one, and on at a
  still later one. Turning the switch on after dry runs, or off for good, is safe.
- Order ids are injective for ticks stamped at or after the epoch; for negative stamps they collide with a level whose
  id ends in a dash (`OrderIds.OrderIdsCollideIff`).
- Converting the decimal zero to hex gives the empty string, which the way back rejects
  (`HexQuantity.DecimalSurvivesHexIff`); the equality test is unaffected.

## Model

| member | source | states |
|---|---|---|
| Rounding.FloorIsDivision | crates/cetus/src/swap_math.rs:44-55 | the quotient and remainder the model computes by subtraction are the machine's `/` and `%` |
| SwapMath.ReductionIsModulus | crates/cetus/src/swap_math.rs:376-392 | the wrap-around the model writes out is reduction modulo 2^128 and 2^256 |
| SwapWalk.ComputeSwap | crates/cetus/src/swap_math.rs:322-414 | the loop over ticks returns, value and error alike, what the recursive walk over the ticks ahead defines: same order, same skips, same early exits |
| SwapTrade.VisitIsLeg | crates/cetus/src/swap_math.rs:365-405 | on sound inputs one iteration cannot fail: it moves the price to where the unbounded leg ends, crosses the tick exactly when that is the tick's price, and takes input plus fee off the remainder only if there was input |
| SwapTrade.VisitBooks | crates/cetus/src/swap_math.rs:376-385 | an iteration keeps the books: input, fee and remainder still add up to the requested amount, the output is one the whole price move can pay, and no sum wraps |
| SwapStep.GetDeltaAExact | crates/cetus/src/swap_math.rs:57-70 | with prices in range and liquidity below 2^96 the 256-bit shift and product never truncate: the result is the exact rounded quotient |
| SwapStep.GetDeltaBExact | crates/cetus/src/swap_math.rs:72-91 | likewise for the other token |
| SwapStep.NextFromInputExact | crates/cetus/src/swap_math.rs:150-161 | an input that does not cover the range yields, without truncation or bounds error, the exact price that input reaches |
| SwapMachine.DeltaAOnAnyInput | crates/cetus/src/swap_math.rs:57-70 | for any prices and liquidity whatever: the rounded quotient of the product shifted by 64 bits and reduced to 256, or the error; no other intermediate can lose anything |
| SwapMachine.ShiftKeepsIff | crates/cetus/src/swap_math.rs:57-70 | the shift keeps the product if and only if the product is below 2^192 |
| SwapMachine.DeltaACanVanish | crates/cetus/src/swap_math.rs:57-70 | at liquidity 2^100 and a price gap of 2^92 the delta comes out as zero, so the liquidity bound of a well-formed pool is needed |
| SwapMachine.DeltaBOnAnyInput | crates/cetus/src/swap_math.rs:72-91 | for any prices and liquidity the other token's delta is exact, or an error beyond 128 bits |
| SwapMachine.PriceAOnAnyInput | crates/cetus/src/swap_math.rs:100-124 | for any arguments the A-side price is the rounded-up quotient, accepted if and only if it is a legal price |
| SwapMachine.PriceBOnAnyInput | crates/cetus/src/swap_math.rs:127-148 | for any arguments the B-side price is the current one moved by the exact quotient, accepted if and only if it is legal |
| SwapMachine.FeesOnAnyInput | crates/cetus/src/swap_math.rs:249-284 | for any amount and fee rate: what the fee leaves and what it adds, in millionths, and the errors |
| SwapMachine.SwapStaysLegal | crates/cetus/src/swap_math.rs:322-414 | on every pool, sound or not, a swap that succeeds leaves the price within the bound it moves towards |
| SwapMachine.TickBeyondBoundIsNotCrossed | crates/cetus/src/swap_math.rs:354-363 | on every pool a tick beyond the legal price range is never crossed |
| SwapExactOut.NextFromOutputExact | crates/cetus/src/swap_math.rs:163-174 | an output the range can pay yields the exact price it needs; the subtraction inside never underflows |
| CurveBounds.InputIsLeast | crates/cetus/src/swap_math.rs:176-190 | the required input is the least amount that covers the move (both directions) |
| CurveBounds.OutputIsGreatest | crates/cetus/src/swap_math.rs:192-206 | the paid output is the greatest amount the move affords (both directions) |
| CurveBounds.FarthestCovered | crates/cetus/src/swap_math.rs:100-148 | the price reached by an input is the farthest price that input covers: covering and reaching are equivalent |
| CurveBounds.InputStopsShort | crates/cetus/src/swap_math.rs:100-161 | an input too small for the range stops strictly short of its end, on the way to it, and covers the move it makes |
| CurveBounds.OutputStopsInside | crates/cetus/src/swap_math.rs:163-174 | an exact-output price lies between start and target and its move affords the output |
| CurveBounds.LongerMoveAffords | crates/cetus/src/swap_math.rs:72-91 | what a move can pay, a longer move in the same direction can pay |
| CurveBounds.MoveNeverBeatsStart | crates/cetus/src/swap_math.rs:57-91 | any covered and affordable move trades no better than the price it starts from |
| CurveBounds.ReturnTripLoses | crates/cetus/src/swap_math.rs:57-148 | swapping back a payout neither passes the starting price nor returns more than was spent |
| CurveBounds.MovesCompose | crates/cetus/src/swap_math.rs:57-91 | payouts of consecutive moves are jointly affordable at the larger liquidity |
| SwapStep.GrossGalois | crates/cetus/src/swap_math.rs:215-229 | an input fits what the fee leaves of an amount if and only if input plus rounded-up fee fits the amount |
| SwapStep.FeeFits | crates/cetus/src/swap_math.rs:249-284 | the fee charged on top of a covered input always fits the remaining amount |
| SwapStep.StepSpendsNoMore | crates/cetus/src/swap_math.rs:249-284 | for any prices, liquidity and fee rate, an exact-input step spends input plus fee no greater than it was given |
| SwapStep.LegGuarantees | crates/cetus/src/swap_math.rs:231-292 | a step stays between start and target, lands on the target if and only if the gross cost fits, otherwise spends everything; input covers the move, the move affords the output |
| SwapGuarantees.LegPaysMost | crates/cetus/src/swap_math.rs:231-292 | a step pays the greatest output that the move it makes affords |
| SwapStep.ExactInputStep | crates/cetus/src/swap_math.rs:231-292 | on sound inputs the machine step succeeds and equals the unbounded step |
| SwapExactOut.ExactOutputStep | crates/cetus/src/swap_math.rs:293-318 | exact characterisation of an exact-output step, its single possible error being a fee beyond 128 bits |
| SwapExactOut.QuoteIsHonoured | crates/cetus/src/swap_math.rs:231-318 | at any liquidity, zero included, paying an exact-output quote into an exact-input step buys at least the quoted output and moves at least as far |
| SwapTheorems.StepOnNothing | crates/cetus/src/swap_math.rs:249-284 | a step that books no input books no fee either, unless the whole remainder is swallowed by the fee; a swallowed remainder books no input |
| SwapTheorems.Conservation | crates/cetus/src/swap_math.rs:376-411 | on every pool, sound or not: the error "consumed more than the remaining input" cannot occur, and a swap that succeeds reports exactly the requested input, fee included |
| SwapTheorems.WellFormedIsSound | crates/cetus/src/swap_math.rs:346-360 | on a well-formed pool every tick the loop visits lies ahead of the current price, in range, at bearable liquidity |
| SwapTrade.WalkIsTrading | crates/cetus/src/swap_math.rs:346-411 | the wrapped loop refines the unbounded trade, leg by leg, with accumulators that telescope below 2^128 when it fills |
| SwapTheorems.SwapIsExact | crates/cetus/src/swap_math.rs:322-414 | on a well-formed pool a swap that fills truncates and wraps nothing and is the unbounded trade; the only error left is unfilled input |
| SwapTheorems.UnfilledTotals | crates/cetus/src/swap_math.rs:376-411 | a swap left unfilled on a well-formed pool keeps exact totals too: the amount plus one more remainder, booked as a fee, for each tick visited after nothing could be spent; no sum wraps as long as amount plus one million per tick stays within 2^128 |
| SwapGuarantees.SwapNeverBeatsSpot | crates/cetus/src/swap_math.rs:322-414 | a whole swap never beats the starting spot price on its net input, and moves the price only in the requested direction |
| SwapGuarantees.SwapMonotone | crates/cetus/src/swap_math.rs:322-414 | of two inputs that fill, the larger yields at least as much output and moves the price at least as far, across any number of ticks |
| SwapFills.SwapFillsIff | crates/cetus/src/swap_math.rs:376-411 | exactly which amounts fill, in terms of gross range costs computable before the call |
| SwapFills.SwapCountsTicks | crates/cetus/src/swap_math.rs:396-411 | the ticks a filled swap reports are the least number of ranges ahead whose gross costs cover the amount (none for nothing), modulo 2^32; the error of one that does not fill reports every tick ahead, the amount, and exactly what the ranges crossed whole have left of it |
| SwapFills.DustNeverFills | crates/cetus/src/swap_math.rs:376-411 | an amount the fee swallows whole never fills, on any pool |
| SwapFills.OneUnitNeverFills | crates/cetus/src/swap_math.rs:376-411 | with any fee, one base unit can never be swapped |
| SwapRoundTrip.StepRoundTrip | crates/cetus/src/swap_math.rs:231-292 | at one liquidity: in, then the whole output back toward a target not short of the start, returns at most the input, in both directions and for every fee rate |
| SwapPosition.CrossingTurnsTick | crates/cetus/src/swap_math.rs:340-352 | crossing the first tick ahead makes it the first tick of the way back and leaves the rest of both walks as they were |
| SwapPosition.OnwardFromEnd | crates/cetus/src/swap_math.rs:340-414 | where a trade leaves the pool, the ticks ahead are exactly those it has not crossed, and the pool is sound for going on in the same direction, whatever it is the other way |
| SwapRoundTrip.SwapRoundTripLoses | crates/cetus/src/swap_math.rs:322-414 | a whole swap and its whole way back, over any number of crossed ticks, returns at most the net input |
| SwapSplit.StoppingCostsMore | crates/cetus/src/swap_math.rs:249-284 | stopping inside a range and going on from there costs at least as much, fees included, as crossing it at once |
| SwapSplit.LegsJoin | crates/cetus/src/swap_math.rs:231-292 | two consecutive steps inside one range pay no more, reach no farther and leave no more to spend than one step with both amounts |
| SwapSplit.SplittingNeverPays | crates/cetus/src/swap_math.rs:322-414 | splitting an input over two successive swaps never yields more output or a farther price than one swap of the sum, across any number of ticks, whenever all three fill, on any pool well-formed in the direction traded |
| OrderIds.OrderIdInjective | crates/trigger/src/run.rs:98-99 | for ticks stamped at or after the epoch the order id determines level and stamp |
| OrderIds.OrderIdsCollideIff | crates/trigger/src/run.rs:98-99 | over all stamps, exactly which pairs share an id (a negative stamp collides with a dash-suffixed level) |
| OrderMachine.OutcomeFits | crates/orchestrator/src/io.rs:40-163 | whatever venue, signer and node answer, the outcome fits the state: the invalid-transition arm is never taken |
| OrderMachine.TerminalIsFinal | crates/orchestrator/src/machine.rs:204-219 | filled and failed orders are final; quarantine is left only by operator release, for failed, keeping the parked hash |
| OrderMachine.NothingToDo | crates/orchestrator/src/run.rs:75-83 | before its retry time, and once filled, failed or parked, an order is neither changed nor sent |
| OrderMachine.SigningDecides | crates/orchestrator/src/io.rs:40-96 | a ready order takes up the signed step, bytes and hash with its own amount, or fails with the signer's reason |
| OrderMachine.SendingDecides | crates/orchestrator/src/machine.rs:142-203 | a signed order becomes submitted under the hash the node returns, at the time of the answer; a failed send is retried min(2^k, 600) seconds later with the same bytes up to eight times and then parked with its hash; without permission it fails unsent |
| OrderMachine.ReceiptDecides | crates/orchestrator/src/io.rs:138-163 | a submitted order told success is filled (or, after an allowance, ready for the swap), told reverted fails, told pending fails exactly when the clock is past submission plus 1800 seconds, always keeping the hash; an unanswered receipt changes nothing |
| OrderMachine.SignedSwapIsNeverReplaced | crates/orchestrator/src/machine.rs:127-184 | once the swap is signed no turn returns to a signable state, and bytes and hash stay the same until it settles |
| OrderMachine.TurnKeepsReservation | crates/orchestrator/src/run.rs:75-120 | a turn keeps id, level and reservation, spends what was reserved, and never counts a ninth retry |
| OrderMachine.BackoffIsPowerOfTwo | crates/orchestrator/src/machine.rs:62-69 | retry k waits min(2^k, 600) seconds |
| OrderMachine.EightRetriesWait510 | crates/orchestrator/src/machine.rs:54-69 | the eight backoffs add up to 510 seconds |
| DriveOrder.OrderTable.UpsertOrder | crates/storage/src/strategy.rs:345-391 | the row is replaced but for its creation time; a lost write changes nothing, an unsure one changes the row and still reports failure |
| DriveOrder.OrderTable.ResolveQuarantine | crates/orchestrator/src/operator.rs:7-21 | succeeds exactly for a stored quarantined order whose write commits; the row becomes failed with the parked hash, its retry budget reset and nothing else of it changed, and no other row changes |
| DriveOrder.DriveOrder | crates/orchestrator/src/run.rs:68-129 | the loop performs exactly the pass its turns define, and the table ends as the replay of the writes it logged |
| DriveOrder.PassIsCopies | crates/orchestrator/src/run.rs:68-129 | a pass is a succession of working copies, each what a turn made of the one before, each sent before the next is written; it goes on while turns say so and writes commit, and ends for the reason it reports |
| DriveOrder.StoredBeforeSent | crates/orchestrator/src/run.rs:82-92 | every transmission of a pass comes from the row written just before it or the row the pass began with |
| DriveOrder.AtMostFourSends | crates/orchestrator/src/run.rs:74-129 | from any state a pass transmits at most four times and never takes the invalid-transition arm |
| DriveOrder.SmoothPassFills | crates/orchestrator/src/run.rs:68-129 | if steps are confirmed one by one and everything is accepted, the pass ends filled, by induction on the steps left |
| DriveOrder.OnePassFills | crates/uniswap/src/lib.rs:458-470 | the twelve-transition cap suffices for the longest step list a venue reports |
| TriggerTick.PlaceOrder | crates/trigger/src/run.rs:79-107 | records, under the deterministic id, a fresh order committing all of the level's amount, keeping the creation time of a row it replaces; leaves the table alone when the quote is refused or the write lost |
| TriggerTick.HandleTick | crates/trigger/src/run.rs:46-76 | every row the tick adds or replaces is a fresh order, for its full amount, of a level that fires and was neither spent, cooling down nor quiet; with distinct levels every such level that is accepted has that row, every one whose order was not recorded is quiet until now + 60, no other quiet time changes, and the executor is woken exactly if an order was recorded |
| TriggerTick.TickPlacesDue | crates/trigger/src/run.rs:46-107 | the loop from any rows and quiet map places nothing but fresh orders of due levels |
| TriggerTick.TickServesDue | crates/trigger/src/run.rs:46-107 | the loop over distinct levels serves every due level and leaves the others' quiet times alone |
| TriggerTick.TickIsAdmitted | crates/trigger/src/fired.rs:7-39 | what a tick is about to place is a snapshot the step system admits |
| TriggerTick.TickIsPlacements | crates/trigger/src/run.rs:46-107 | undisturbed, the imperative tick leaves exactly the rows of the step system's placements |
| Sweeping.Sweep | crates/orchestrator/src/run.rs:52-65 | with distinct ids, the row of every listed order that is not terminal ends as a pass over that listed copy alone would leave it, whatever happens to the others; every other row is unchanged |
| Sweeping.SweepDrivesEach | crates/orchestrator/src/run.rs:52-65 | driving the listed open orders one after another gives each the row it would have alone, by locality of each pass to its own row |
| Sweeping.PassIsRun | crates/orchestrator/src/run.rs:68-129 | undisturbed, the step system's turn and write steps leave exactly the rows drive_order leaves |
| Sweeping.SweepIsRun | crates/orchestrator/src/run.rs:52-65 | undisturbed, the step system's steps over the whole list of open orders leave exactly the rows sweep leaves, and the sweeper at rest |
| RowInvariant.StepKeepsRowInv | crates/orchestrator/src/run.rs:52-129 | every step of trigger, sweeper, operator, restart and failed write keeps: one live order per level, snapshots still valid, working copies equal to their rows |
| LedgerInvariant.TransmissionKeepsHistory | crates/orchestrator/src/io.rs:112-124 | a transmission adds to its attempt only bytes that attempt already sent, or the first ones |
| LedgerInvariant.StepKeepsLedger | crates/orchestrator/src/machine.rs:100-219 | every step keeps the correspondence between rows, bytes sent, chain fates and why attempts ended |
| LifecycleTheorems.AtMostOneLiveOrder | crates/trigger/src/fired.rs:34-39 | in every reachable state a level has at most one order that is not failed |
| LifecycleTheorems.FilledIsForever | crates/trigger/src/fired.rs:34-39 | a filled order is never changed again and its level never starts another attempt |
| Settlement.StepKeepsGrounded | crates/orchestrator/src/run.rs:68-129 | every step keeps: a submitted row's transaction was sent by its attempt, a filled row's swap was sent by its attempt and has landed |
| Settlement.FilledHasLanded | crates/orchestrator/src/io.rs:138-163 | in every reachable state the hash of a filled order is that of a swap its own attempt sent, and that swap has landed |
| LifecycleTheorems.ReservationIsKept | crates/orchestrator/src/machine.rs:100-184 | in every reachable state each order commits exactly its reserved amount and has at most eight retries |
| LifecycleTheorems.SentWasStored | crates/orchestrator/src/run.rs:68-92 | everything ever sent was, when sent, the content of its order's broadcasting row |
| LifecycleTheorems.OneSwapPerAttempt | crates/orchestrator/src/machine.rs:142-160 | all swap transmissions of one attempt are identical bytes, through restarts and failed writes |
| LifecycleTheorems.EndsAreEvents | crates/orchestrator/src/run.rs:84-92 | every recorded end of an attempt is a write or a release that happened in the run |
| LifecycleTheorems.CauseOfSentSwap | crates/orchestrator/src/machine.rs:186-214 | if an ended attempt has sent its swap and the chain has not rejected it, the attempt ended by timeout, by operator, or blocked after the broadcast switch was turned off |
| LifecycleTheorems.EarlierWasGivenUp | crates/orchestrator/src/machine.rs:100-219 | if a swap landed although a later attempt of its level sent something too, and the switch never went on, off and on again, the run holds the landed attempt's receipt timeout or operator release |
| LifecycleTheorems.DoubleLandingNeedsTimeoutOrOperator | crates/orchestrator/src/machine.rs:100-219 | two different swaps of one level both land only if the run holds the earlier attempt's receipt timeout or operator release, or the broadcast switch was on, later off, and later on again |
| SwitchSchedule.OnOffOnLandsTwice | crates/orchestrator/src/machine.rs:198-203 | for every schedule of the switch over the daemon's starts that is on, later off and later on: a run from the initial state with just these starts in which two different swaps of one level land and no event gives any attempt up by timeout or operator |
| SwitchSchedule.DoubleLandingIffOnOffOn | crates/orchestrator/src/machine.rs:198-203 | a schedule of the switch admits a double landing without the earlier attempt being given up if and only if it is on, later off, and later on again |
| RetryTiming.TimeoutWaitedForDeadline | crates/orchestrator/src/io.rs:153-173 | a timeout is recorded only for a writing that some turn of the run proposed on being told there is no receipt and on reading a clock past the receipt deadline; the clock is otherwise arbitrary |
| RetryTiming.TurnIsTimely | crates/orchestrator/src/run.rs:75-112 | one turn keeps the counter equal to the failed sends, and, if its clock readings are in order, makes a new failed send only after the previous one's backoff |
| RetryTiming.QuarantinedOnNinthFailure | crates/orchestrator/src/machine.rs:54-69 | without crashes or failed writes, and whatever the clock does, an order is parked exactly on its ninth failed send |
| RetryTiming.FailuresAreSpaced | crates/orchestrator/src/run.rs:75-112 | without crashes or failed writes, and if the clock is never set back, failed sends k and k+1 of an attempt are at least min(2^k, 600) seconds apart, and the nine that park an order take at least 510 seconds |
| RetryTiming.ReachableReadyOrderFills | crates/orchestrator/src/run.rs:68-129 | any order that a run leaves ready holds no retry deadline and is filled by one pass in which everything is accepted and confirmed |
| Positional.CanonicalIsNumeral | crates/uniswap/src/amount.rs:58-67 | a numeral without leading zeros is determined by its value |
| DecimalText.TrimIsCanonical | crates/uniswap/src/amount.rs:116-117 | trimming leading zeros leaves the canonical text of the value |
| HexQuantity.AppendHexDigit | crates/uniswap/src/amount.rs:46-56 | one pass over the digit vector multiplies its value by sixteen and adds the hex digit |
| HexQuantity.HexToDecimal | crates/uniswap/src/amount.rs:40-68 | returns the canonical decimal of the value for any length and case, and errs exactly on empty or non-hex input |
| HexQuantity.DivideBySixteen | crates/uniswap/src/amount.rs:96-104 | the long division yields quotient and remainder by sixteen |
| HexQuantity.DecimalToHex | crates/uniswap/src/amount.rs:91-113 | returns the canonical lower-case hex of the value (empty for zero), terminates, and errs exactly on empty or non-decimal input |
| HexQuantity.QuantityMeans | crates/uniswap/src/amount.rs:77-89 | a quantity is 0x and hex digits in either case, or decimal digits; anything else is refused according to its prefix |
| HexQuantity.SameQuantity | crates/uniswap/src/amount.rs:77-89 | true exactly when both strings denote the same number in either encoding; the first invalid one is the error |
| HexQuantity.HexSurvivesDecimal | crates/uniswap/src/amount.rs:40-113 | hex to decimal and back is the same digits, lower-cased and trimmed |
| HexQuantity.DecimalSurvivesHexIff | crates/uniswap/src/amount.rs:40-113 | decimal to hex and back is the canonical decimal if and only if the value is not zero; zero comes back as an error |
| HexQuantity.ConversionsKeepQuantity | crates/uniswap/src/amount.rs:40-89 | a converted quantity is the same quantity |
| DecimalOrder.IntegersCompareByValue | crates/uniswap/src/amount.rs:115-119 | compare_decimal_integers decides the order of the integers |
| DecimalOrder.ScaledAmountsCompareByValue | crates/uniswap/src/amount.rs:121-139 | compare_scaled_amounts decides the order of the rationals its arguments denote |
| DecimalOrder.DecimalsCompareByNumber | crates/graph/src/lib.rs:625-653 | decimal_cmp answers exactly on unsigned decimals with a whole part, and answers the order of the rationals |
| DecimalOrder.ProductIsExact | crates/graph/src/lib.rs:565-595 | decimal_product succeeds exactly when digits and product fit 256 bits, and then is the canonical decimal of the exact product |
| DecimalOrder.ProductIsCommutative | crates/graph/src/lib.rs:565-595 | equal products are equal texts: exchanging the factors changes nothing |
| DecimalNumber.CanonicalIsUnique | crates/domain/src/model.rs:249-273 | two canonical decimals of the same number are the same text |
| DecimalNumber.PlacePointDenotes | crates/graph/src/lib.rs:573-583 | padding, splitting and trimming yield the canonical decimal of the digits over ten to the scale |
| Slippage.ApplySlippageString | crates/domain/src/model.rs:284-311 | for digit strings of any length, the canonical decimal of floor(raw * (10000 - bps) / 10000); the errors exactly as in the code |
| Slippage.Multiply | crates/domain/src/model.rs:293-303 | the schoolbook loop computes the exact product |
| Slippage.CarryBelow | crates/domain/src/model.rs:293-299 | the carry stays below the multiplier and the product below 2^32 |
| Slippage.SlippageVersionsAgreeIff | crates/domain/src/model.rs:276-311 | the 64-bit and string versions agree on every 64-bit amount if and only if the slippage is at most 5000 or above 10000 basis points |
| Slippage.SlippageIsFloor | crates/domain/src/model.rs:284-311 | exactly which inputs are answered, and the answer is the largest whole number of base units not above the amount less the slippage |
| Slippage.SlippageNeverAdds | crates/domain/src/model.rs:284-311 | the result never exceeds the input |
| Units.ExceedsIffTooLarge | crates/domain/src/model.rs:235-239 | the textual comparison with the written maximum is the numeric 256-bit bound |
| Units.ParseMeans | crates/domain/src/model.rs:216-241 | parse_units_string accepts exactly the unsigned decimals that are a positive number of base units within 256 bits, and returns its canonical text |
| Units.TrimCutsSpaces | crates/domain/src/model.rs:216-219 | trimming cuts all whitespace off both ends and nothing else |
| Units.ParseRefuses | crates/domain/src/model.rs:216-241 | which refusal a text meets: empty or signed, not digits, too many places, zero, beyond 256 bits |
| Units.BaseUnitsExact | crates/domain/src/model.rs:229-230 | no rounding: the base units over ten to the decimals are the number written |
| Units.ParseUnitsFits | crates/domain/src/model.rs:209-213 | the 64-bit version accepts the same inputs below 2^64, with the same number |
| Units.FormatMeans | crates/domain/src/model.rs:249-273 | format_units_string accepts exactly digit strings and returns the canonical decimal of the amount |
| Units.FormatThenParse | crates/domain/src/model.rs:216-273 | parsing a formatted amount returns the canonical digits if and only if the amount is positive and within 256 bits |
| Units.ParseThenFormat | crates/domain/src/model.rs:216-273 | formatting a parsed amount returns the canonical form of what was written |
| Units.AmountSurvivesIff | crates/trigger/src/run.rs:109-119 | an amount shown with some decimals and read back by the venue is unchanged if and only if the two decimals agree and it is positive and within 256 bits |
| MarketStore.Store.UpsertStrategy | crates/storage/src/strategy.rs:177-204 | a market changes only while no level points at it; otherwise an error and unchanged tables |
| MarketStore.Store.UpsertLevel | crates/storage/src/strategy.rs:272-308 | a level is written only while its market is field by field the expected one; otherwise an error and unchanged tables |
| MarketStore.Store.DeleteLevel | crates/storage/src/strategy.rs:333-340 | refused while orders refer to the level; deleting an unknown level succeeds |
| MarketStore.ValidatedIsSound | crates/trigger/src/authoring.rs:112-140 | a draft that validates passes the startup check and stores exactly the base units written; the 256-bit conversion cannot fail |
| MarketStore.DraftBecomesLevelIff | crates/trigger/src/authoring.rs:112-140 | exactly which drafts become levels, and which: "buy" spends the market's quote token and "sell" its base token, in the decimals registered for it on the market's chain, any other side is refused |
| MarketStore.StoredLevelPassesIff | crates/trigger/src/authoring.rs:148-173 | the startup check passes exactly the levels of a tradable market, within the slippage limit, in the decimals of the token their side spends |
| MarketStore.SetLevel | crates/mcp/src/admin.rs:502-527 | undisturbed, the level written is the validated draft against the stored market, spending the quote token to buy and the base token to sell in that token's decimals; nothing is written when the market is missing or the draft invalid |
| MarketStore.WritableUnlessChanged | crates/storage/src/strategy.rs:272-308 | through any run of other clients' validations, writes, edits, deletions and orders, a level validated against the current market can be written all along if and only if no edit really changes that market (another row, two different tokens, no level standing on it) |
| MarketStore.StepsTakeEffect | crates/storage/src/strategy.rs:177-340 | in the interleaved system a draft validated and committed is the stored level under its market, a level without orders is removed, an order of a stored level is recorded, and a market without levels takes any edit to two different tokens |
| MarketStore.MarketFrozenWhileUsed | crates/storage/src/strategy.rs:177-204 | while a level points at a market no step changes the market |
| MarketStore.StepKeepsConsistent | crates/trigger/src/authoring.rs:112-140 | every interleaved step keeps every stored level at the market it was validated against |
| MarketStore.StoredLevelsStaySound | crates/trigger/src/run.rs:109-119 | under a fixed configuration, after any interleaving, every stored level passes the startup check, its decimals are those of the quote token if it buys and of the base token if it sells, and the quote asked for it spends that token for the other in an amount that is read back exactly |
| MarketStore.OrdersKeepTheirLevel | crates/storage/src/strategy.rs:333-340 | no order ever points at a level that is gone |
| LiquidityProfile.LiquidityPoints | crates/graph/src/lib.rs:517-545 | the two loops build the chart the recursive walks define, errors included |
| LiquidityProfile.AppliesSignedNet | crates/graph/src/lib.rs:547-563 | the step succeeds exactly when the signed sum is an unsigned 256-bit integer, and is that sum |
| LiquidityProfile.WalkIsPrefixSum | crates/graph/src/lib.rs:525-541 | either loop shows at each tick it meets the starting liquidity plus all it has gained so far, at the exact product price |
| LiquidityProfile.WalkSucceedsIff | crates/graph/src/lib.rs:525-563 | a loop succeeds exactly when every net parses, the liquidity stays an unsigned 256-bit integer all the way and every price can be formed |
| LiquidityProfile.ChartIsProfile | crates/graph/src/lib.rs:517-545 | the assembled chart has one point per tick and one for the current price between the sides; below it each shows the pool's liquidity less the net of the ticks from there up, above it the liquidity plus the net of the ticks up to there |
| LiquidityProfile.ChartKeepsOrder | crates/graph/src/lib.rs:517-545 | ticks that arrive in ascending order are charted in that order, none left out |
| ChartSign.EngineCrossesOppositely | crates/cetus/src/swap_math.rs:387-392 | the swap engine and the chart cross a tick with opposite signs: they agree if and only if the tick's net is zero |
| ChartSign.ChartCrossing | crates/graph/src/lib.rs:547-563 | what the chart makes of a crossing, where it fits, is the engine's crossing in the other direction |
| ChartSign.SignsAgreeBeforeNet | crates/cetus/src/swap_math.rs:346-414 | a whole swap is the same under either sign, value and error, if the amount is no more than the gross cost of the ranges up to the first tick with nonzero net |
| ChartSign.SignsPartAtNet | crates/cetus/src/swap_math.rs:346-411 | otherwise both signs cross that tick at the same price and totals, having spent exactly the cost of the ranges up to it, and go on with the same rest at their own liquidity |
| ChartSign.ChartFillsIff | crates/cetus/src/swap_math.rs:376-411 | exactly which amounts fill with the chart's sign, in terms of the range costs along the negated nets |
| ChartSign.LessLiquidityMovesFarther | crates/cetus/src/swap_math.rs:346-414 | where the engine's liquidity stays on one side of its start and both signs fill, the sign with less liquidity moves the price at least as far |

## Left out

- Networks and storage engines: RPC, HTTP, GraphQL and SQL are replaced by arbitrary answers and atomic table updates; a write may commit, be lost, or take effect and report failure.
- Signing, key files and transaction building: `sign` may return any step, bytes and hash, as long as one hash never names two different byte strings.
- Floating point: price gates, level thresholds and the quote guard are arbitrary booleans, and a level's trigger price is not stored in the model.
- Chain behaviour assumed in `Lifecycle.HonestAnswer`: a node that accepts returns the transaction's own hash, receipts agree with the chain, and a fate once decided is final.
- Columns of an order that no transition reads (plan, venue, chain, tokens) and the text of interpolated error messages.
- Lending states: Withdrawing and Depositing exist in the type and do nothing, as in the code; no step reaches them.
- The operator's release is one atomic step of the step system; `DriveOrder.OrderTable.ResolveQuarantine` models its read, apply and write.
- Ticks stamped before the epoch are outside the step system; what their ids collide with is stated exactly in `OrderIds.OrderIdsCollideIff`.
- Cooldown spacing between attempts: re-creating a row under the same id does not refresh its creation time, so no spacing between attempts is claimed.
- Debug-profile overflow panics: sums wrap as in the release profile, and on well-formed pools are shown not to wrap in any swap that fills, nor in one that does not as long as the amount leaves room for one million base units a tick (`SwapTheorems.UnfilledTotals`).
- U256 parsing of an empty or malformed liquidityNet magnitude: the sign and magnitude arrive already split in `LiquidityProfile`.
- Token lookup is an arbitrary function of chain and name; its case folding and coin-type normalisation are not modelled.
- Dashboard, command line, logging, configuration loading, the audit store and the agent-facing tools: user interface and I/O.
