# Arbitrage trading system: a Dafny model

The repository trades binary prediction markets. It looks for baskets of buys,
sells and set splits that cannot lose whatever happens, sizes them against the
order books, and sends at most one at a time to an execution task. This project
models the parts that make those claims true and proves them:

- **The engine.** A component of markets has a set of legal worlds: one truth
  value per market, one winner per verified partition, at most one per
  unverified one, every relationship satisfied. The enumeration (an odometer
  over partitions times a bit mask over free markets) is proved to list exactly
  those worlds, each once, and to refuse exactly when their unpruned number is
  over budget, although the code counts in saturating 128-bit arithmetic. The
  linear-program path then holds for *any* solver output whatsoever: what it
  emits fits the books, leaves no token short, and its quoted net is the least
  net over the legal worlds, recomputed from prices and quantities. Every fill and
  split is determined by the solver's numbers, depth and what is on hand. Grouping the
  registry into components loses no real outcome, so that net is a floor on what
  the basket brings however the whole registry resolves.
- **The walker.** Several ladders are marched at once on unrounded marginals,
  then the fills are re-accounted with rounding against the trader. Every leg is
  a best-first prefix of its ladder, the result is within
  2 · (levels touched) + 2 millionths of the best reachable extent, and the
  outlay stays within the cap plus rounding and uses it up when the cap is what
  stops it. The lemmas for classes 1 to 3 turn this into no-loss in every world the
  market structure allows, recomputed from the books alone, and into the exact
  condition under which each shape is reported.
- **Order books.** The dense array with its cached best level refines a map from
  tick to positive quantity; iteration lists exactly that map, best first.
- **Dispatch.** The coordinator and the execution task are a state machine over
  their own steps, the death of the execution task, the kill flag, commands,
  snapshots and shutdown. Over every interleaving: one basket in flight at most, exposure
  equals committed cost plus that basket, every opportunity and every dispatch
  is accounted for, halts and the kill are final, an opportunity goes out exactly
  when nothing stands in its way, each halt trips exactly on its own condition,
  and shutdown ends within six steps with nothing reserved. The coordinator is
  also given as an object whose methods update its fields in place, each proved
  to do what the state machine's step says, and whose whole run returns exactly
  what the results received add up to.
- **Caches and greedy choices.** The cooldown cache with its purge decides as
  one that never forgets; the fingerprint's byte string names exactly the class
  and the multiset of legs; capped market selection is optimal on every prefix
  of the ranking; union-find components are exactly the connected ones; packing
  splits no component and wastes at most a factor of two.
- **Arithmetic and parsing.** Day numbers to Gregorian dates and the RFC 3339
  timestamp (section 5.6), exact decimal parsing in 64 bits, and the convergence
  signals of the backtest, which are earliest, causal and monotone.

Money and sizes are integers: millionths of a dollar and of a share. Time is an
integer. The pure parts are functions; parts that update state are classes and
methods with loops, tied by their contracts to functions about which the lemmas
speak.

Two places where the code and its documentation disagree; the model follows the
code. A convergence signal's `trigger_price` is documented as the price of the
K-th wallet's buy (crates/backtest/src/core.rs:140-157); with several buys in
the triggering second it is the price of the first of them.
`Signals.TiedTriggerPrice` is such an input, `Signals.PriceIsKthWallets` says
exactly when the two agree, and `Signals.PriceIsKthWhenTimesDiffer` that they
always do when no two buys share an instant. An existing halt reason is
documented as never rewritten (crates/risk/src/lib.rs:208-223); recording an
error does rewrite it when the error window is full, and the errors queued
before the halt count. `Risk.DrawdownIsRenamed` and `Risk.QueuedErrorsRename` are
such cases, and `Risk.ReasonSurvives` says exactly when the reason survives, over
every run of errors, successes and snapshots before and after the halt. The halt
itself is sticky, as `Safety.StopIsFinal` needs.

One expectation is false of the walker: that a basket some extent of which
clears both the profit and the edge gate is reported. The march goes on while a
share still gains anything, and the edge is then measured over everything taken;
`Class1.EdgeWalkedPast` is an input where that loses the basket. Where the march
stops is said of the ladders and the cap alone (`WalkerStop.UnitsIsTheStop`), so
`Emission.ReportedExactly` and `Emission.MissedExactly` give the exact condition
and `Emission.LastShareSuffices` one that is checked on a single share;
`Emission.EarningLaddersAreReported` asks it of every share instead and needs
nothing about the stop. The case
of the repository's own unit test, a complete set at 46 and 52 cents, is the
witness `Class1.CheapSetIsBought`.

One law holds only under a condition: realized P&L is reported cash plus
reported cost when no cost was reported against a token of which nothing is
held. `Safety.RealizedIsReported` gives the law without the condition, with that
cost as its only difference.

## Model

| member | source | states |
|---|---|---|
| Num.EdgeGate | crates/core/src/num.rs:89-97 | The floored, saturated edge clears a floor exactly when basis is positive and net · 10 000 reaches floor · basis (or the floor is the saturation point) |
| Num.TickIsShareOfDollar | crates/core/src/num.rs:37-65 | A tick is one hundredth or one thousandth of a dollar, and exactly the interior ticks lie strictly between nothing and a dollar |
| Num.BuyCostIsLeast | crates/core/src/num.rs:67-81 | A buyer pays the least whole amount that covers price times quantity |
| Num.ProceedsAreMost | crates/core/src/num.rs:83-87 | A seller gets the most whole amount that price times quantity covers |
| Num.FeeIsLeast | crates/core/src/fees.rs:6-19 | The fee is the least whole amount covering rate times the distance to the nearer end of the price range times quantity: the same from both ends, nothing at a rate not above zero |
| Num.FillCashRounding | crates/core/src/num.rs:67-87 | A fill's exact cash, fee included, never exceeds its unrounded value and is less than two millionths below it |
| Num.ScaledCostMonotone | crates/engine/src/walker.rs:57-64 | With fees within 100% a worse price never lowers the scaled marginal cost, for buys and sells |
| Book.Ladder.Set | crates/core/src/book.rs:46-61 | A set replaces one entry of the tick-to-quantity map and nothing else, and the cached best is again that map's extremal tick |
| Book.Ladder.RescanFrom | crates/core/src/book.rs:67-73 | The rescan finds the best non-empty tick strictly worse than the given one, or there is none |
| Book.Ladder.LevelsIsContents | crates/core/src/book.rs:75-85 | Iteration lists exactly the map's levels, strictly from best to worse, starting at the cached best |
| Book.RemainingBestFirst | crates/core/src/book.rs:92-123 | What an iterator still has to yield is strictly best first from its cursor on |
| Book.LadderIter.Next | crates/core/src/book.rs:94-122 | Each call yields the head of what remains and leaves the tail; None exactly when nothing remains |
| Book.TokenBook.Apply | crates/core/src/book.rs:147-152 | An update reaches its own side's map and leaves the other side as it was |
| Book.TokenBook.ViewIsBook | crates/core/src/book.rs:75-140 | What the engine reads of a book is well formed on both sides, holds exactly the two maps, and starts at the cached bests |
| Worlds.WorldOfInjective | crates/engine/src/lp.rs:185-213 | Different odometer readings or masks denote different worlds |
| Worlds.LegalWorldIsDenoted | crates/engine/src/lp.rs:185-213 | Every legal world is denoted by some odometer reading and mask |
| Worlds.ListingIsLegalWorlds | crates/engine/src/lp.rs:132-238 | Filtering the full candidate list by the consistency test leaves exactly the legal worlds, each once |
| Enumerate.ExceedsBudget | crates/engine/src/lp.rs:155-173 | The saturating 128-bit product exceeds the budget exactly when the true product does |
| Enumerate.AdvancedAddsOne | crates/engine/src/lp.rs:215-234 | An odometer step adds one to its mixed-radix value and carries out exactly at the last reading |
| Enumerate.BuildWorld | crates/engine/src/lp.rs:187-208 | The world written into the array is the one its reading and mask denote |
| Enumerate.EnumerateWorlds | crates/engine/src/lp.rs:132-238 | None exactly when the unsaturated number of candidates exceeds the budget; otherwise exactly the legal worlds, none repeated |
| Revalidate.HoldingsWorthIsPayoff | crates/engine/src/lp.rs:278-335 | Payoff computed from the merged position map equals payoff leg by leg and split by split |
| Revalidate.NakedShortIsHeld | crates/engine/src/lp.rs:316-321 | No map entry is negative exactly when no token anywhere is sold beyond what buys and splits give |
| Revalidate.ExactWorstNet | crates/engine/src/lp.rs:267-347 | Some exactly when every token and market is known and nothing is short; then the basis is splits plus buys with fees, and the net is attained in some given world and a floor in all of them |
| Lp.ExtractedInDepth | crates/engine/src/lp.rs:591-635 | Whatever numbers the solver returns, each extracted fill is at a quoted level and within its quantity, one fill a level |
| Lp.ClampSells | crates/engine/src/lp.rs:647-672 | The in-place clamp computes, sell by sell, what splits, buys and earlier sells leave |
| Lp.BasketIsSound | crates/engine/src/lp.rs:591-692 | After clamping, fills are within depth, no token is short and all are known, for every solver output, so re-validation never refuses |
| Extraction.EveryLevelIsVariable | crates/engine/src/lp.rs:424-475 | Every quoted level of a component's token is a variable on its side |
| Extraction.FillsAnswerSolver | crates/engine/src/lp.rs:591-672 | A fill is in the basket exactly when some variable keeps it: a buy its floored number up to depth, a sell what the sells before it leave on hand, at the level's own price and rounded cash |
| Extraction.SoldIsAllOnHand | crates/engine/src/lp.rs:647-672 | Of every token the basket sells all that was asked for, or all that splits and buys bring in; it buys all that was asked for |
| Extraction.SplitsAnswerSolver | crates/engine/src/lp.rs:637-692 | Exactly the markets with a positive number are split, by that number, and the gas is one split for each and one redemption |
| Lp.Validate | crates/engine/src/lp.rs:676-721 | Given the legal worlds, a basket is emitted exactly when it is not empty and its worst net clears both floors |
| Lp.SolveComponent | crates/engine/src/lp.rs:389-722 | For every solver output: found exactly when within budget and tradable, then in depth, never short, its net the attained minimum over all legal worlds and above both gates; too many worlds and solver failure each exactly when they hold |
| Walker.TakenFills | crates/engine/src/walker.rs:149-164 | Filling u shares takes exactly u |
| Walker.TakenIsPrefix | crates/engine/src/walker.rs:149-164 | It takes whole levels best first and part of the last one only |
| Walker.MarchWithinDepth | crates/engine/src/walker.rs:106-171 | The march never goes past the shallowest ladder |
| Walker.SegsCashIsLadderCash | crates/engine/src/walker.rs:177-211 | Cash accounted per taken segment equals cash recomputed from the ladder at that extent |
| Walk.TakenStep | crates/engine/src/walker.rs:149-163 | Pushing a chunk on the segments gives what filling that much more takes |
| Walk.RunMarch | crates/engine/src/walker.rs:106-171 | The cursor loop ends with the march's extent and every cursor standing there |
| Walk.Walk | crates/engine/src/walker.rs:74-234 | The imperative walk returns the priced result at the march's extent, or None exactly when nothing is taken or a gate fails |
| Execution.WalkedFills | crates/engine/src/walker.rs:177-234 | Every fill the walk returns has its units as quantity, as limit the worst price that quantity needs on its own ladder (all better levels fall short of it, with this one they suffice), and as cash what a taker of the best of that ladder pays or gets, level by level with fees |
| Execution.LastTakenIsLimit | crates/engine/src/walker.rs:149-211 | The last price recorded while filling is that worst needed price |
| Execution.LadderCashIsTakerCash | crates/engine/src/walker.rs:177-211 | The walk's accounting is the sum over levels of what a taker finds at each |
| WalkerOptimal.NetRounding | crates/engine/src/walker.rs:177-218 | The exact net is at most the unrounded one and within two millionths a touched level of it |
| WalkerOptimal.MarchIsOptimal | crates/engine/src/walker.rs:106-218 | No extent within common depth beats the chosen one by 2 · levels touched + 2; only when the cap stopped a march whose next share still pays is the comparison limited to its own extent |
| WalkerOptimal.NoMissedProfit | crates/engine/src/walker.rs:74-234 | If some extent nets the minimum profit and that slack, something is taken, and it is emitted exactly when its edge clears the floor |
| WalkerStop.UnitsIsTheStop | crates/engine/src/walker.rs:106-171 | For all ladders and caps the march ends at the one extent where every share before gains, the charge fits the cap, and the next share is missing, does not gain, or does not fit; the clamp on the charge is kept |
| Emission.ReportedExactly | crates/engine/src/walker.rs:74-234 | A basket is reported exactly when exact net and exact edge clear both gates at that stop, and then with that size |
| Emission.StopNetsMost | crates/engine/src/walker.rs:106-218 | The stop nets at least what any affordable extent does, up to 2 · levels touched + 2 |
| Emission.MissedExactly | crates/engine/src/walker.rs:220-234 | With an affordable extent worth the minimum profit and that slack, a basket is missed exactly when the net up to the stop falls short of the floor on the basis up to the stop |
| Emission.LastShareSuffices | crates/engine/src/walker.rs:106-234 | If an affordable extent clears both gates with rounding to spare and the last share before the stop earns the floor on its own cost, the basket is reported |
| Emission.EarningLaddersAreReported | crates/engine/src/walker.rs:74-234 | Said of the ladders alone: if every share that gains earns the floor on its own cost and some affordable extent clears both gates with rounding to spare, the basket is reported |
| WalkerCap.BasisWithinCap | crates/engine/src/walker.rs:133-170 | The exact outlay is at most the cap plus two millionths a touched buy level |
| CapUsed.CapIsUsed | crates/engine/src/walker.rs:129-170 | When the cap alone stops the march the exact basis with one more share is over it, up to one micro-dollar a charge |
| CapUsed.CapIsFilled | crates/engine/src/walker.rs:129-170 | And there is at most one charge a level touched, unless a level is worth more than the clamp |
| Baskets.BuyBasketSettles | crates/engine/src/walker.rs:177-234 | A bought basket settles in any world at its net plus units times the difference between tokens paying and the promised payout |
| Quotes.WalkedIsHonest | crates/engine/src/walker.rs:74-234 | What the walk returns for the quoted legs of some tokens takes exactly those quotes at one size, and its basis is the outlay at the books plus collateral |
| Quotes.WalkedIffWorth | crates/engine/src/walker.rs:74-234 | The walk of quoted legs reports exactly when both gates clear where their ladders and the cap stop |
| Class1.NoLoss | crates/engine/src/class1.rs:9-63 | Every long or split-and-sell opportunity is at the market's own books (asks for buys, bids for sells, the owner's fee rate), states its true basis, nets exactly its net in every world when recomputed from those books and the gas table, clears both gates and is never short |
| Class1.EmittedExactly | crates/engine/src/class1.rs:9-63 | The long shape is reported exactly when buying both quotes for a dollar is worth it, the short one exactly when selling both against a dollar of collateral is, and nothing else is reported |
| Class1.EdgeWalkedPast | crates/engine/src/class1.rs:9-30 | Two ladders, default parameters: an affordable extent clears both gates, the march runs on to where the edge is gone, and nothing is reported |
| Class2.SetsPay | crates/engine/src/class2.rs:12-66 | Under an exactly-one partition the YES set pays one and the NO set all but one |
| Class2.NoLoss | crates/engine/src/class2.rs:12-66 | Every set opportunity is at its tokens' own asks, states its true basis, nets exactly its net in every world with one winner when recomputed from books and gas table, clears both gates and is never short |
| Class2.EmittedExactly | crates/engine/src/class2.rs:12-66 | For a verified well-formed partition the YES set is reported exactly when every token has quotes and buying them for a dollar is worth it, the NO set likewise for one dollar less than its size; otherwise nothing is reported |
| Class3.NoLoss | crates/engine/src/class3.rs:13-95 | Every pair opportunity is at its tokens' own asks, states its true basis, nets its net or more in every world its relationship allows when recomputed from books and gas table, clears both gates and is never short |
| Class3.EmittedExactly | crates/engine/src/class3.rs:13-95 | NO a with YES b for an implication, both NOs for exclusives, each diagonal for equivalents: reported exactly when both tokens have quotes and buying the pair for a dollar is worth it; an unknown market reports nothing |
| Class3.FloorIsAttained | crates/engine/src/class3.rs:13-28 | Where exactly one of the two tokens pays, the pair settles at exactly its net |
| Fingerprint.CanonicalIsIdentity | crates/engine/src/dedup.rs:35-65 | Two opportunities have the same byte string exactly when class and multiset of (token, side, limit price) agree: order and size do not matter |
| Fingerprint.CollisionsAreHashCollisions | crates/engine/src/dedup.rs:35-65 | Equal fingerprints of different shapes come from the hash of different strings |
| Fingerprint.ClassesNeverCollide | crates/engine/src/dedup.rs:35-65 | The same legs under two classes never share a fingerprint |
| Fingerprint.CanonicalLayout | crates/engine/src/dedup.rs:35-65 | The string is the class's number, then eleven bytes a leg in sorted order: token, side and tick, low byte first |
| Fingerprint.PersistedValue | crates/engine/src/dedup.rs:254-263 | The value the repository pins for a one-leg class-1 opportunity |
| Fnv.Fnv1a | crates/engine/src/dedup.rs:12-19 | The loop computes the 64-bit wrapping fold |
| Fnv.XorByteBits | crates/engine/src/dedup.rs:12-19 | Mixing in a byte is exclusive or on every bit: the low eight with the byte, the others unchanged |
| Fnv.OneByteNeverCollides | crates/engine/src/dedup.rs:12-19 | Two strings that differ in exactly one byte never have the same hash, because the multiplication is invertible modulo 2^64 |
| Dedup.Cooldown.Admit | crates/engine/src/dedup.rs:92-110 | Decision and new cache are the specification's, purge included |
| Dedup.PurgeIsInvisible | crates/engine/src/dedup.rs:92-110 | With a clock that never runs back every decision is that of a cache that never forgets |
| Dedup.ReadmissionImproves | crates/engine/src/dedup.rs:92-110 | Two admissions of one fingerprint within a window: the later net beats the earlier by more than the improvement percentage |
| Dedup.SuppressedExactly | crates/engine/src/dedup.rs:92-110 | Over every session a call is suppressed exactly when the latest admission of its shape lies within the window and is not beaten by more than the percentage |
| Dedup.BarIsPercent | crates/engine/src/dedup.rs:99-103 | For a net that is not negative, beating the integer bar is beating the exact percentage |
| Dedup.PurgeForgetsExpired | crates/engine/src/dedup.rs:93-97 | Past 1024 shapes every expired one is forgotten at the next call |
| Risk.ReleaseUndoesReserve | crates/risk/src/lib.rs:136-151 | A release restores exposure, every market's exposure and the open orders exactly |
| Risk.ApprovedStaysWithinCaps | crates/risk/src/lib.rs:103-142 | After an approved check is reserved, bankroll, order and per-market caps hold |
| Risk.QueueIsWindow | crates/risk/src/lib.rs:184-206 | Over every run of errors, successes and snapshots the error queue holds exactly the errors since the last success that stand in the window trailing the newest, whatever was popped on the way |
| Risk.ErrorHaltIsExact | crates/risk/src/lib.rs:184-201 | After any such run that halted nothing, the next error halts exactly when it finds the configured count in its window |
| Risk.ReasonSurvives | crates/risk/src/lib.rs:184-206 | Whatever run led to a halt of another reason, over the rest of it the reason stays exactly when no later error finds the configured count in its window, errors from before the halt counted; otherwise it is renamed to consecutive errors |
| Risk.ErrorsTogetherRename | crates/risk/src/lib.rs:184-206 | As many errors at one instant as the count always rename the halt |
| Risk.DrawdownIsRenamed | crates/risk/src/lib.rs:198-223 | A daily-drawdown halt and three errors in one report: the reason becomes consecutive errors |
| Risk.QueuedErrorsRename | crates/risk/src/lib.rs:198-223 | Two errors, then the drawdown halt, then one more error: the reason becomes consecutive errors |
| Risk.RiskEngine.Check | crates/risk/src/lib.rs:103-133 | The pre-check gives the first failing gate's verdict in the order the gates are tried |
| Risk.RiskEngine.Error | crates/risk/src/lib.rs:184-201 | Errors outside the window drop off the front; reaching the count halts |
| Halts.HaltedExactly | crates/risk/src/lib.rs:184-236 | Over every run of errors, successes and snapshots an engine that had not halted has halted exactly when some change tripped: an error with a full window, an equity at least the drawdown below one reached, a session loss at the cap |
| Halts.FirstTripNames | crates/risk/src/lib.rs:184-236 | The first change to trip names the halt |
| Halts.PeakIsHighest | crates/risk/src/lib.rs:208-221 | The peak is the highest equity ever marked or where it started |
| Halts.ReportIsChanges | crates/app/src/coordinator.rs:504-546 | A report moves errors and halts as one error for a failed or unwound basket, one success for a clean or repaired one, then its order errors |
| Halts.SnapshotIsChanges | crates/app/src/coordinator.rs:631-662 | A snapshot marks the mid equity for the drawdown, then the bid equity for the session loss |
| Positions.LeftoversAddToCost | crates/app/src/positions.rs:30-50 | Reported leftovers raise the booked cost by exactly their cost |
| Positions.LeftoversByToken | crates/app/src/positions.rs:30-50 | Every token's quantity and cost grow by what is reported of it and no other |
| Positions.DeltasByMarket | crates/app/src/positions.rs:30-50 | Each market's delta is the cost reported of its tokens |
| Positions.MarkMovesEquity | crates/app/src/positions.rs:67-90 | A mark moves equity one for one while something is held of its token, and never moves realized P&L |
| Positions.UnmarkedIsCash | crates/app/src/positions.rs:67-90 | With nothing marked, equity is cash, whatever is held |
| Positions.PositionBook.Apply | crates/app/src/positions.rs:30-50 | Positions, cash and the per-market cost deltas after a report |
| Positions.PositionBook.ComputePnl | crates/app/src/positions.rs:69-88 | The loop over the map in any order gives cash, basis and mark value split into realized, unrealized and equity |
| Positions.PositionBook.OpenPositions | crates/app/src/positions.rs:56-65 | The loop counts exactly the tokens of which something is held |
| Dispatch.CheckTotals | crates/app/src/coordinator.rs:96-124 | The reserved total is every known buy leg's cash plus all split collateral, and the sum of the per-market amounts, each market once |
| Admission.CheckMeans | crates/app/src/coordinator.rs:96-124 | The risk view counts every leg, its largest leg bounds every leg's cash and is reached, and each market's amount is its buys' cash plus its splits, listed exactly when one of them is on it |
| Admission.ApprovedExactly | crates/risk/src/lib.rs:103-133 | A basket is approved exactly when nothing is stopped and every cap has room for it |
| Admission.RejectionNamesFirstGate | crates/risk/src/lib.rs:103-133 | A rejection names a gate that fails, and every gate before it in order passes |
| Admission.DispatchedExactly | crates/app/src/coordinator.rs:364-484 | An opportunity goes out exactly when it is fresh, no repeat, plausible, fit for live mode, within every limit, and nothing is stopped or in flight |
| Admission.VerdictIsFirstObstacle | crates/app/src/coordinator.rs:364-464 | Each other verdict is given exactly when its own obstacle is the first in the way |
| Admission.SlotTaken | crates/app/src/coordinator.rs:364-373 | An opportunity neither stale nor a repeat takes its shape's cooldown slot, whatever stops it later; no other shape's entry changes except by being forgotten |
| CoordinatorTask.BasketCheckOf | crates/app/src/coordinator.rs:96-124 | The loops build exactly that risk view |
| CoordinatorTask.CoalesceKeepsBest | crates/app/src/coordinator.rs:341-362 | A batch keeps one candidate per fingerprint seen: the first with the best net |
| CoordinatorTask.Coordinator.Judge | crates/app/src/coordinator.rs:364-464 | The gates in order give the verdict and only the cooldown moves |
| CoordinatorTask.Coordinator.ProcessOpp | crates/app/src/coordinator.rs:364-484 | Verdict, counters, reservation and send, a failed send giving the reservation back |
| CoordinatorTask.Coordinator.HandleOpps | crates/app/src/coordinator.rs:341-352 | Each distinct opportunity is tried once, in some order, and state and requests are exactly what trying them in that order gives; at most one goes out |
| CoordinatorTask.Coordinator.HandleReport | crates/app/src/coordinator.rs:504-546 | Slot freed, reservation released, costs committed, counters and error chain updated |
| CoordinatorTask.Coordinator.SnapshotPnl | crates/app/src/coordinator.rs:631-662 | Mid marks feed the drawdown halt and bid marks the session-loss cap |
| CoordinatorTask.TimerMarksBoth | crates/app/src/coordinator.rs:631-662 | The timer marks the book at mid prices for the drawdown and at bid prices for the session loss, and moves nothing else but the log of a halt |
| CoordinatorTask.ReportsAreHeard | crates/app/src/coordinator.rs:301-325 | While a basket is in flight and the channel open its report is heard, in the loop and in the drain, and frees the slot |
| CoordinatorTask.EndedHearsNothing | crates/app/src/coordinator.rs:301-325 | Once the report channel has ended no report is heard |
| Counters.BatchIsTallied | crates/app/src/coordinator.rs:364-470 | Over a batch each verdict's counter grows by the number of opportunities that met it, each judged in the state the ones before it left |
| Counters.LoopIsTallied | crates/app/src/coordinator.rs:504-546 | Over the whole loop each outcome's counter grows by the number of results heard with it |
| CoordinatorTask.Begin | crates/app/src/coordinator.rs:186-238 | A new coordinator has received and counted nothing, and its books are in order: what a whole run starts from |
| CoordinatorTask.Coordinator.Turn | crates/app/src/coordinator.rs:301-314 | One turn is exactly the kill check followed by the wake-up's handler; a result is heard exactly when a basket is in flight and the report channel open, and the books grow by just that result |
| CoordinatorTask.Coordinator.Run | crates/app/src/coordinator.rs:295-339 | For every script of wake-ups final state, requests sent and results heard are those of the loop, drain, release and last snapshot as functions; the results heard decide the returned cash, equity and open positions and the final exposure market by market; every request is answered or given back, every opportunity has one fate, the kill trips exactly when seen |
| Protocol.ReceiveBalances | crates/app/src/coordinator.rs:504-512 | A report releases exactly what was reserved and commits exactly what it says |
| Protocol.StepKeepsInv | crates/app/src/coordinator.rs:295-339 | Every step of coordinator, execution task and environment keeps single flight, balanced exposure, the counters and the books |
| Protocol.EveryRunHolds | crates/app/src/coordinator.rs:295-339 | In every interleaving busy, in flight and one outstanding reservation coincide; requests, executing and reports never exceed one and carry its check; admitted and dispatched add up |
| Protocol.NothingReservedAfterReturn | crates/app/src/coordinator.rs:315-339 | When the coordinator returns nothing is reserved: exposure is what was committed, market by market |
| Safety.StopIsFinal | crates/app/src/coordinator.rs:446-464 | Once the kill flag is up or a halt has tripped nothing is dispatched for the rest of the run |
| Safety.PauseHolds | crates/app/src/coordinator.rs:260-269 | While the risk engine is paused and until the next resume command nothing is dispatched |
| Safety.PauseCommandHolds | crates/app/src/coordinator.rs:260-269 | From a pause command on, and until a resume command, nothing is sent or counted as dispatched |
| Safety.CommandsDecide | crates/app/src/coordinator.rs:260-278 | In every run both pause flags say what the last pause or resume said, and live dispatch is released exactly at the start or by its command in live mode |
| Safety.CommandsUndo | crates/app/src/coordinator.rs:260-278 | A resume undoes exactly a pause; a release changes one flag in live mode and nothing on paper |
| Safety.EveryRequestIsCleared | crates/app/src/coordinator.rs:364-464 | Every basket ever sent is under the edge ceiling and the leg limits, and in live mode past release and every live gate |
| Safety.SendIsAlone | crates/app/src/coordinator.rs:464-483 | A basket goes out into empty queues |
| Safety.SendIsWithinCaps | crates/app/src/coordinator.rs:442-466 | Its reservation leaves the bankroll, order and per-market caps respected |
| Safety.RealizedIsReported | crates/app/src/positions.rs:69-88 | Over every run realized P&L is reported cash plus reported cost less the cost on tokens not held, whatever the marks |
| Safety.RealizedIsCashPlusCost | crates/app/src/positions.rs:69-88 | With a quantity behind every reported cost the difference vanishes |
| Safety.ShutdownEnds | crates/app/src/coordinator.rs:315-339 | After the opportunity channel closes at most six more steps can happen, and one can until the coordinator has returned |
| Selection.RankingIsKept | crates/app/src/wiring.rs:323-353 | The ranking holds exactly the markets of an allowed segment, fee-free ones left out on request, each as often as listed, and none before one with more volume, or as much and more liquidity, or both alike and a smaller id |
| Selection.MarketSelection | crates/app/src/wiring.rs:311-370 | The walk with its per-component counters computes the greedy choice |
| Selection.ChosenIsCapacity | crates/app/src/wiring.rs:354-370 | On every prefix of the ranking the number chosen is the smaller of the market cap and the sum of per-component capacities |
| Selection.NoChoiceDominates | crates/app/src/wiring.rs:354-370 | No choice obeying both caps has more markets in any prefix |
| Selection.ChosenObeys | crates/app/src/wiring.rs:354-370 | The greedy choice is itself such a choice |
| Selection.UncappedIsPrefix | crates/app/src/wiring.rs:354-370 | Without the per-event cap it is the first markets of the ranking |
| UnionFind.Components.Find | crates/registry/src/components.rs:34-40 | Climbing parents ends at the root |
| UnionFind.Components.Union | crates/registry/src/components.rs:42-49 | One more link: afterwards roots agree exactly on what the links connect |
| UnionFind.Components.ComponentOf | crates/registry/src/components.rs:51-54 | Two markets have one component exactly when a chain of links joins them |
| UnionFind.Build | crates/registry/src/components.rs:14-32 | The links are neighbours in each partition and the ends of each relationship |
| UnionFind.PartitionStaysTogether | crates/registry/src/components.rs:14-32 | No partition is split between components |
| UnionFind.RelationshipStaysTogether | crates/registry/src/components.rs:14-32 | Nor are the ends of a relationship |
| UnionFind.LinksAreRelated | crates/registry/src/components.rs:14-32 | Nothing is linked that shares neither a partition nor a relationship |
| Components.BuildComponentIndex | crates/app/src/wiring.rs:456-513 | Every component with a market has exactly its markets, admitted partitions, relationships and tokens, in order, and every token is routed to its market's component |
| Components.EntryShares | crates/app/src/wiring.rs:456-513 | An entry lists exactly the markets of its component, the relationships between them, and the groupings of them that are well formed and verified or, on request, mutually exclusive |
| Components.RoutedWhereListed | crates/app/src/wiring.rs:456-474 | A token is routed to a component exactly when that component's entry lists it |
| Components.Assemble | crates/registry/src/lib.rs:367-369 | The assembled registry groups two markets exactly when partitions and relationships connect them |
| Components.EntryIsValidComponent | crates/app/src/wiring.rs:456-513 | Every entry is a component the enumeration and the solver path accept |
| Components.RealOutcomeIsLegal | crates/app/src/wiring.rs:456-513 | Any real outcome, where only NegRisk and verified groupings are mutually exclusive and only verified ones have a winner, is one of the component's legal worlds |
| Components.LegalEverywhereIsReal | crates/app/src/wiring.rs:456-513 | When every grouping is let in, an outcome that each component takes for legal is a real outcome of the registry |
| Components.GateIsReality | crates/app/src/wiring.rs:476-490 | A grouping is let in exactly when every real outcome respects it, and without the opt-in exactly when every real outcome has one winner in it: a plain grouping may see two |
| Guarantee.FoundPaysInReality | crates/engine/src/lp.rs:389-722 | A basket found on an indexed component nets at least its stated net, and the minimum profit, in every real outcome of the whole registry, recomputed from limit prices, fee rates and the gas table; its basis is the outlay |
| Guarantee.SolveIndexed | crates/app/src/wiring.rs:456-513 | Index, enumerate, solve, validate: for every solver output what is found pays in every real outcome, and a component is missing exactly when it has no market |
| Packing.FirstFit | crates/app/src/wiring.rs:524-534 | No component is split, an oversized chunk is one component alone, any two chunks together exceed the limit |
| Packing.AllTokensPacked | crates/app/src/wiring.rs:456-535 | For any order of the map the packed tokens are the registry's, each as often as listed |
| Packing.FewChunks | crates/app/src/wiring.rs:517-535 | (chunks − 1) · (limit + 1) is at most twice the tokens |
| Packing.DecreasingIsSorted | crates/app/src/wiring.rs:521-522 | The order packed in is by decreasing size and loses nothing |
| Packing.PackComponents | crates/app/src/wiring.rs:517-535 | The chunks are a first-fit packing of the components by decreasing size, hold every token as often as the components do, and are few |
| Subscriptions.PackRegistry | crates/app/src/wiring.rs:456-535 | Index, then pack: in whatever order the map yields the components, every token of the registry is in exactly one chunk, once, and nothing else is; no component is split; a chunk over the limit is one component; no two chunks could be one |
| Calendar.CivilIsValid | crates/backtest/src/main.rs:549-560 | Every day number, negative ones included, gives a date that exists |
| Calendar.CivilSuccessor | crates/backtest/src/main.rs:549-560 | The next day number gives the next calendar day |
| Calendar.EpochIsDayZero | crates/backtest/src/main.rs:549-560 | Day zero is 1970-01-01 |
| Timestamp.EpochDayOfCivil | crates/backtest/src/main.rs:549-560 | Adding up calendar lengths takes the date back to its day number |
| Timestamp.CivilOfEpochDay | crates/backtest/src/main.rs:549-560 | Every date that exists is reached, from its own day number |
| Timestamp.FormatNamesInstant | crates/backtest/src/main.rs:537-547 | For years 0000 to 9999 the string has the RFC 3339 shape and reads back as the instant it was printed from |
| Decimal.ParseMicro | crates/ingestion/src/decimal.rs:27-64 | The loops with checked 64-bit steps give the specified value or the first error in order |
| Decimal.ParseIsExact | crates/ingestion/src/decimal.rs:27-64 | Accepted as v exactly for a numeral with at most six fraction digits and at least one digit whose value in millionths is v and fits 64 bits |
| Decimal.RoundTrip | crates/ingestion/src/decimal.rs:106-120 | Printing canonically and parsing back is the identity on all 64-bit values |
| Signals.DistinctIsWalletsIn | crates/backtest/src/core.rs:294-303 | The list with its seen set holds exactly the wallets of the window, each once |
| Signals.FirstConvergence | crates/backtest/src/core.rs:289-309 | The nested loops find the first buy that completes the count |
| Signals.SignalIsEarliest | crates/backtest/src/core.rs:283-309 | The signal is stamped at the earliest of all instants with k distinct wallets in the trailing window; its wallets are exactly those; None exactly when there is no such instant |
| Signals.AtMostOneFiresFirst | crates/backtest/src/core.rs:289-309 | With k zero or one the signal is the first buy |
| Signals.NeverLater | crates/backtest/src/core.rs:289-309 | Fewer wallets or a wider window never fires later |
| Signals.PriceIsKthWallets | crates/backtest/src/core.rs:140-157 | The returned price is the k-th wallet's exactly when the first buy at that instant brings the count from k − 1 to k |
| Signals.PriceIsKthWhenTimesDiffer | crates/backtest/src/core.rs:140-157 | When no two buys share an instant the signal has exactly k wallets and the price is that of the k-th wallet's buy |
| Signals.TiedTriggerPrice | crates/backtest/src/core.rs:289-309 | Two wallets in one second: the first one's price is returned |
| SignalMeaning.SignalMeans | crates/backtest/src/core.rs:183-219 | From whitelist and tapes alone: a side signals exactly when some instant has k distinct whitelisted wallets with an eligible buy in the trailing window, and then at the earliest one, at the price of the least wallet buying at that instant |
| SignalMeaning.SignalsAfter | crates/backtest/src/core.rs:183-227 | Exactly the signals due: each side that ever has k eligible whitelisted buyers in a window gets one, at the earliest such instant, naming exactly those wallets once each, and no other side gets one; sorted by time, market and outcome |
| Signals.NoLookAhead | crates/backtest/src/core.rs:183-227 | Tapes that agree up to a time give the same signals stamped by then: time, wallets and price |

## Left out

- The linear-program solver and its float rows: an arbitrary vector of naturals (or a failure) stands for its output, so nothing is claimed about optimality or a budget for that class.
- Machine widths of sums and products that the code computes in 64 or 128 bits without checks: integers are unbounded, except where the code saturates or checks (the world count, the edge, decimal parsing, the hash).
- The fee formula above a price of one dollar, which no caller produces: the fee base is taken as zero there.
- Classes 1 to 3 and the walker read a book as its list of levels, best first; `Book.TokenBook.ViewIsBook` is what connects those lists to the arrays.
- Registry loading (identifiers, partition derivation, relationship files): `Components.ValidRegistry` states what it must deliver; segment classification is a flag on each market, and metrics are numbers, never NaN.
- The maps built beside the component index for execution.
- The standard library's sort is its specification: a stable insertion sort on values (`Sorting`). Hash-map iteration is any order; per-market amounts, sorted after the fact in the code, are kept sorted.
- The coordinator's asynchronous scheduling: each handler is one step, interleavings are all allowed, the wall clock and the age of an opportunity are inputs, a closed channel is an event, and whether too many recent session starts were counted is known at the start. Store rows, logs, the status watch, latency counters and `dispatch_enabled`, which is constant, are not part of this model.
- The bid and mid marks themselves (crates/app/src/coordinator.rs:594-629): the marked equities are arbitrary inputs of a snapshot.
- Basket execution behind the venue: its report is arbitrary, one per request. The execution loop itself (crates/app/src/coordinator.rs:689-723) is the take, finish and die steps of `Protocol`.
- CoordinatorTask.Coordinator.Run: leaves open in which order a batch's opportunities are tried, because the map's order is arbitrary; everything else is said relative to that order.
- How often 64-bit FNV-1a collides on strings that differ in more than one byte.
- The order state machine, the strategies, configuration, the live venue, ingestion of feeds and the backtest's statistics: mostly input and output, or settled by reading one branch.
