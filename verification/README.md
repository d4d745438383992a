# ARIA verification model

A Dafny model of the deterministic parts of ARIA, an agent-based trading bot, and of the properties its protocol, accounting, stream processing and statistics have. `dafny verify dfyconfig.toml` is the command for the whole project.

Every `f64` is a `real`, time is an `int` (milliseconds, candle times in seconds), and everything the code gets from outside is a parameter: the clock, the exchange's answers, LLM replies, strategy scores, map iteration order, and `exp`, `sqrt` and `log10` (of which only positivity, s*s = x, monotonicity and the values at 0 and 1 are used).

## How it is organised

**Capital protection.** `Risk` is the shared risk manager, `Positions` the book and its exit machine, `SurvivalScore` and `Survival` the survival agent, `RiskGate` the risk agent's gates, `Execution` the execution agent, `Watchdog` the watchdog. Each is a class that updates its fields as the source does, proved against a specification of its whole history. `Protocol` puts the agents together as a transition system: one append-only log with a cursor per agent, the shared account, and interleaved steps; a step is what one task does between two points where another can run, and both `apply_state` and the risk agent's gate sequence are split at every lock. The gates, the policy's verdict and the size composition are those of `RiskGate`, `Policy` and `Quant`. Runs are arbitrary. `Sight` says what an agent has seen of the log, `Pipeline` what stands behind an order and how large it can be, `Freeze` what a freeze guarantees and what it does not.

**Streams.** `Candles` and `DataAgent` (trades to candles), `Choppiness`, `Bollinger` and `Adx` (indicators), `Hmm` (regime filter), `Backtest` (replay): the streaming form is proved equal to a definition over the whole input history.

**Statistics.** `Significance`, `Correlation`, `TailRisk`, `MonteCarlo`, `Metrics`, with `Sorting`.

**Learning loop.** `Memory`, `Lessons`, `Policy`, `Quant`: from closed trades to the size factor of the next entry.

`Reals`, `Windows`, `Costs`, `Counting`, `Statistics` and `Signals` hold what several modules share.

## What turned out not to hold

Each of these is kept as the code has it and shown by a lemma with a concrete input or run; another says exactly when the property holds.

- The daily profit ratchet never locks for a non-negative setting (`SurvivalScore.RatchetNeverLocks`); it locks exactly on a losing day above a negative setting (`RatchetLocksIff`).
- A freeze by the operator or the watchdog is not kept: `apply_state` clears any freeze (`Freeze.OperatorFreezeNotKept`), although the comment at src/agents/survival.rs:494-495 says manual freezes stay. The account is frozen exactly when the last step that touched the flag set it (`FrozenIff`).
- The refresh task and the event task of the survival agent are not serialised against each other: an older healthy state can clear a newer freeze (`StaleStateThaws`; `FrozenIff` is the condition), or leave the account frozen with a live multiplier (`FrozenWithLiveMultiplier`). A halting apply ends frozen always, and with multiplier 0 exactly when the state scaled last between its two steps, if any, was a halting one too (`HaltAppliedEnds`, `MultiplierIff`). Other agents may step in between: `FreezeSafety` only needs that sizes are not scaled up.
- A position that reaches breakeven without trailing is never closed by a later tick, not even by the hold limit, against the intent stated at src/execution/position.rs:4-7: `Execution.OpenedGetsStuck` is such a position as the agent opens it, `Positions.StuckExactlyWhen` says when it happens, `StopAtEntryIsAbsorbing` that it lasts.
- A repeated client id overwrites a book entry while the open count still rises; the balance with overwritten fills is `Execution.ExecutionAgent.Accounts`.
- The HMM filter is not Bayes' rule for every model its constructor accepts: with no positive transition it is uniform after any observations (`Hmm.ZeroMatrixRestarts`). It is Bayes' rule exactly if some state is reachable from the prior's support in as many positive transitions as there are observations (`BayesIff`); otherwise it is Bayes' rule over the observations since it last restarted from the uniform law (`FilterSinceRestart`).

Where documentation and code differ the model follows the code: docs/SURVIVAL.md:87-89 measures the equity floor against initial minus death line, the code against initial equity; docs/SURVIVAL.md:137 lets the daily-count cooldown end at midnight, the code after 24 hours; the help text at src/agents/control.rs:297 says `flat` also freezes, the code only closes; src/agents/bus.rs:5-8 says a slow consumer drops messages, but every agent's loop ends at the lag error; the comment at src/execution/risk.rs:267 gives the size without the two caps.

## Model

The main results come first; the steps they rest on follow, module by module.

| member | source | states |
|---|---|---|
| `Hmm.InferIsBayes` | src/strategy/hmm.rs:13-62 | every model the constructor accepts with non-negative transitions filters by Bayes' rule over the observations since its last restart; from its own prior if and only if some state is reachable in that many moves, and always if every row leads somewhere |
| `Hmm.FilterSinceRestart` | src/strategy/hmm.rs:50-60 | for any observations the filter is Bayes' rule over those since its last restart, from the law it then started from |
| `Hmm.BayesIff` | src/strategy/hmm.rs:50-60 | the filter is Bayes' rule if and only if some state is reachable, in as many moves as there are observations, from the prior's support along positive transitions |
| `Hmm.FilterIsPosterior` | src/strategy/hmm.rs:50-60 | normalising every step equals Bayes' rule: path weights (prior, transitions, likelihoods) summed over all hidden paths and divided once at the end |
| `Hmm.ZeroMatrixRestarts` | src/strategy/hmm.rs:13-96 | a model the constructor accepts (no positive transition, prior certain of one state) whose filter is uniform after any observations |
| `Freeze.FreezeSafety` | src/agents/survival.rs:482-500 | whoever steps while a halting state is applied: unless sizes are scaled up after its first step, the account ends frozen at multiplier 0, nothing is dispatched until a step clears the flag, and every later entry was sized before that first step and was then in flight |
| `Freeze.HaltAppliedEnds` | src/agents/survival.rs:482-491 | a halting apply always ends frozen, and with multiplier 0 if and only if the state scaled last in between, if any, was a halting one |
| `Freeze.MultiplierIff` | src/agents/survival.rs:483 | from a moment with multiplier 0 on, it is 0 if and only if the state scaled last since then, if any, was a halting one |
| `Freeze.FrozenUntilUnfrozen` | src/agents/execution.rs:227-230 | in every interleaving of the modelled steps nothing is dispatched from a frozen moment until a step that clears the flag |
| `Freeze.FrozenIff` | src/agents/survival.rs:482-500 | frozen if and only if the last step that touched the flag set it |
| `Pipeline.DispatchBound` | src/agents/execution.rs:196-279 | end to end: behind every dispatched entry one signal passed the survival, policy, account and validation gates in order, was sized by the risk manager, heard and sent on by the brain, and taken up by the manager at a moment when the last survival state he had read was not a halting one; the request sent has its symbol and side, its stop and target moved only by the manager's offsets, and a positive size of at most 5.4 times what was calculated for it |
| `Pipeline.LeakageBound` | src/agents/execution.rs:196-279 | and at most as many entries are dispatched as orders were in flight at that moment, a size calculated and not yet published included |
| `Pipeline.OnlyStaleSizes` | src/agents/risk.rs:237-285 | from a moment with multiplier 0 until it is scaled up, every dispatched size was calculated before that moment |
| `Freeze.PublishedIsApplied` | src/agents/survival.rs:122-136 | no survival state is on the bus before it was applied to the end: the survival loop that publishes it first scaled for it and then froze or looked whether to thaw |
| `Freeze.HaltSeenIsApplied` | src/agents/survival.rs:482-500 | so whenever a gate refuses for the sake of a halting state, the account was already frozen for that state |
| `Sight.CacheIsLastConsumed` | src/agents/bus.rs:36-39 | each gate's survival cache is the last state in the prefix of the log its agent has consumed |
| `Freeze.DispatchSeesNoHalt` | src/agents/execution.rs:212-226 | with honor_survival nothing is dispatched while that state is a halting one |
| `Freeze.OperatorFreezeNotKept` | src/agents/survival.rs:492-498 | a run in which a healthy refresh clears an operator's freeze without any unfreeze command |
| `Freeze.StaleStateThaws` | src/agents/survival.rs:482-500 | a run in which the agent's two tasks race: a completely applied Frozen is cleared by an older Healthy state |
| `Freeze.FrozenWithLiveMultiplier` | src/agents/survival.rs:482-500 | a run in which the same race leaves the account frozen with multiplier 1 |
| `Execution.ExecutionAgent.Accounts` | src/agents/execution.rs:84-194 | equity = initial + published profits; open count = positions + overwritten; start + fills = closes + overwritten + positions; tripped if and only if a close since the last reset met a limit |
| `Execution.ExecutionAgent.Run` | src/agents/execution.rs:72-367 | any inputs, any interference at every await: the accounts stay balanced; without id reuse nothing is overwritten |
| `Execution.ExecutionAgent.AtMostOneClose` | src/agents/execution.rs:84-194 | with distinct ids each fill is closed at most once and the open count is exactly fills less closes |
| `Execution.ExecutionAgent.PeakOfPublished` | src/agents/execution.rs:84-194 | the peak is the largest of initial equity plus the first j published profits |
| `Execution.ExecutionAgent.PublishedProfits` | src/execution/position.rs:298-303 | every published close of a positive size has a positive profit exactly above entry for a Long and below it for a Short, 0 exactly at entry, and of size times the distance |
| `Execution.TargetEarns` | src/execution/position.rs:207-257 | a take-profit exit with the target on the winning side earns at least size times the distance to the target, and raises equity |
| `Execution.ApprovedIsFresh` | src/agents/execution.rs:328-344 | an approved proposal whose stop is on the losing side of its fill opens a fresh position with exactly that stop, target and size, to which the exit theorems apply |
| `Candles.CoarseIsMergeOfFine` | src/data/ohlcv_builder.rs:36-91 | a builder with interval k*T produces exactly the merges of the T-candles per coarse bucket |
| `Candles.OhlcvBuilder.Ingest` | src/data/ohlcv_builder.rs:44-78 | after any trades in any order, emitted candles plus the forming one are the per-run folds; the candle returned is the one the trade closed |
| `Candles.CandlesCover` | src/data/ohlcv_builder.rs:36-78 | each candle covers its run in time: open time at or before the first trade, every trade before the close time, the run's first and extreme prices, and the next run at or past it |
| `Candles.NewCandleIff` | src/data/ohlcv_builder.rs:44-54 | a trade starts a new candle if and only if its timestamp is at or past the close time of the forming one |
| `Candles.CandlesAreDisjoint` | src/data/ohlcv_builder.rs:36-91 | candles lie on the grid, low <= open, close <= high, and intervals increase without overlap |
| `Candles.VolumeConserved` | src/data/ohlcv_builder.rs:55-75 | the volumes of all candles sum to the quantities of all trades |
| `DataAgent.PublishedCandles` | src/agents/data.rs:65-91 | per symbol and timeframe the published candles are that symbol's complete candles, each as often as the timeframe is configured: none lost, reordered or mixed |
| `Positions.StopRatchet` | src/execution/position.rs:199-288 | over any ticks the stop only tightens, first moves to entry, and is never worse than entry after breakeven |
| `Positions.ExitsExactly` | src/execution/position.rs:184-260 | one tick of any reachable position whose stop is off its entry: overdue, else stop reached, else target reached, else kept, each exactly then |
| `Positions.KeptUntouched` | src/execution/position.rs:167-295 | while a position is kept, no tick taken with the stop off entry was overdue, at or past the stop as it then stood, or at or past the target |
| `Positions.ClosedWhy` | src/execution/position.rs:167-295 | a position that is closed was closed by one tick of the run, kept until then, and for the reason that tick gives |
| `Positions.StuckExactlyWhen` | src/execution/position.rs:216-245 | the absorbing state is reached exactly by breakeven without trailing: profit from the breakeven threshold up to, not including, the trailing one |
| `Positions.StopAtEntryIsAbsorbing` | src/execution/position.rs:184-190 | a position whose stop equals entry is never changed or closed by any later ticks |
| `Execution.OpenedGetsStuck` | src/agents/execution.rs:61-68 | a position the execution agent opens gets there: Long at 100, stop 99, first tick 100.6; no later ticks change or close it, overdue or not |
| `Positions.TrailingMidpoint` | src/execution/position.rs:222-243 | with no ATR a trailing stop is the midpoint of entry and the best price since activation |
| `Positions.NeverReportsTrailing` | src/execution/position.rs:199-243 | with positive prices such a position always leaves through the hard-stop test, never as a trailing exit |
| `Positions.RunMirror` | src/execution/position.rs:199-288 | Long and Short are step-for-step mirror images about entry while prices stay positive on both sides |
| `Risk.SizeIsLargest` | src/execution/risk.rs:271-282 | the size is the largest quantity within the risk budget, the leverage cap and the notional cap |
| `Risk.TrippedIff` | src/execution/risk.rs:298-323 | tripped if and only if some close since the last reset left the account at a limit |
| `Risk.EquityConserved` | src/execution/risk.rs:288-316 | over any history without a broker refresh, equity is the initial equity plus the sum of the closes |
| `Risk.PeakIsRunningMaximum` | src/execution/risk.rs:288-296 | the peak bounds every equity ever held and one of them attains it |
| `SurvivalScore.ModeIff` | src/agents/survival.rs:442-459 | Dead if and only if equity is at the death line; Frozen if and only if halted or under 25; multiplier 0 exactly in those two modes |
| `SurvivalScore.RatchetLocksIff` | src/agents/survival.rs:402-420 | the daily profit ratchet locks if and only if the day is a loss that is still at or above the ratchet setting |
| `SurvivalScore.WorseNeverScoresHigher` | src/agents/survival.rs:324-441 | a worse account never scores higher and is never given a larger multiplier |
| `Survival.Drive` | src/agents/survival.rs:140-206 | the agent itself, over any inputs before an active cooldown ends: every published state is a halting one and the account stays frozen at multiplier 0 |
| `Survival.InCooldownIff` | src/agents/survival.rs:253-297 | in cooldown at a moment exactly if some losing close since the last clearing calls for one beyond it: the short one by the streak, the long one by losses in the window, a day by losses on one date |
| `Survival.CooldownIsMaximum` | src/agents/survival.rs:258-297 | cooldown_until is the maximum over everything called for by the closes since it was last cleared |
| `Survival.CooldownHolds` | src/agents/survival.rs:355-371 | until it expires, and unless cleared, every recompute gives Frozen or Dead with multiplier 0 |
| `Survival.StreakIsTrailingLosses` | src/agents/survival.rs:253-302 | consecutive_losses is the length of the trailing run of losses |
| `Survival.RecentIsLastDay` | src/agents/survival.rs:239-251 | the deque holds exactly the closes of the 24 hours before the last one |
| `Policy.BlockedOnMemory` | src/learning/policy.rs:55-76 | memory to verdict: blocked exactly if the memory shows one of the four reasons for the strategy, regime and symbol, and the pause that follows from it is not over |
| `Policy.LosingRunBlocks` | src/learning/lessons.rs:144-164 | journal to verdict: a losing run that reaches the trigger blocks its strategy and symbol until the cooldown is over |
| `Policy.DistrustedIff` | src/learning/lessons.rs:227-248 | journal to lesson: high confidence is distrusted exactly if enough trades were entered with at least 80 and too few of them won |
| `Policy.VerdictOnExtraction` | src/learning/policy.rs:55-76 | on one extraction: multiplier 0 if and only if blocked, else that of the strategy's derating (0.5) or boost (1.2), else 1 |
| `Policy.VerdictIgnoresOrder` | src/learning/policy.rs:55-76 | the order of the lessons only affects the order of the matched list |
| `Lessons.Extract` | src/learning/lessons.rs:117-276 | the result lists, without repetition and in any order, exactly the lessons whose rule fires |
| `Memory.Build` | src/learning/memory.rs:61-121 | one pass gives, for every key of every grouping, the statistics of exactly that key's trades |
| `Memory.MarginalsAdd` | src/learning/memory.rs:71-87 | whenever fine keys are exactly those of a coarse group, their totals add up to the group's |
| `Significance.DoubledTail` | src/research/significance.rs:7-12 | doubling the observed tail and clamping at 1 is the exact two-sided p-value of an even coin |
| `Significance.MassesSumToOne` | src/research/significance.rs:31-41 | binomial theorem: the probabilities of 0..n successes sum to 1 for every n and p |
| `Significance.TwoSidedLaws` | src/research/significance.rs:3-13 | it lies in (0, 1], is the same for wins and losses exchanged, and never rises as the split gets more lopsided |
| `Significance.PermutationPValue` | src/research/significance.rs:15-29 | counts the accumulated rotations of the original pairs that are at least as extreme; the result lies in (0, 1] |
| `Correlation.PerfectIffAffine` | src/research/ic.rs:67-94 | +1 (-1) if and only if the pairs lie exactly on a rising (falling) line |
| `Correlation.CauchySchwarz` | src/research/ic.rs:73-93 | Cauchy-Schwarz for all sequences, with the equality case |
| `Correlation.ImplementationsAgree` | src/portfolio/correlation.rs:1-22 | the two copies of the Pearson coefficient agree on any two slices, the longer cut to the shorter |
| `TailRisk.CvarIsWorstMean` | src/portfolio/var.rs:12-24 | no selection of as many returns has a worse mean than CVaR reports |
| `TailRisk.VarIsQuantile` | src/portfolio/var.rs:1-10 | a positive VaR is the quantile: at most n(1-c) returns are worse, and more than that many are as bad or worse |
| `TailRisk.CvarAtLeastVar` | src/portfolio/var.rs:1-24 | for every non-empty list and confidence in [0, 1), CVaR >= VaR >= 0 |
| `TailRisk.MonotoneInConfidence` | src/portfolio/var.rs:1-24 | both are non-decreasing in confidence |
| `MonteCarlo.ShufflePermutes` | src/backtest/monte_carlo.rs:53-59 | a permutation for every seed and length |
| `MonteCarlo.MaxDrawdownIsMaximum` | src/backtest/monte_carlo.rs:29-46 | is the maximum over all moments of (running maximum - equity) / running maximum, the running maximum starting at 0 |
| `MonteCarlo.IntervalsOrdered` | src/backtest/monte_carlo.rs:22-51 | p50 <= p95 <= p99, and each is the drawdown of some order of the same trades |
| `Adx.AdxIndicator.Next` | src/indicators/adx.rs:45-119 | the stepwise accumulators give the reading defined over the whole candle history |
| `Adx.ReadingBounds` | src/indicators/adx.rs:45-119 | the same for every reading, and ADX lies in [0, 100] through seeding and all updates |
| `Adx.SmoothedIsDiscounted` | src/indicators/adx.rs:88-91 | the smoothing recurrence is the sum weighted by powers of 1 - 1/p |
| `Choppiness.IndexNonNegative` | src/indicators/choppiness.rs:66-68 | and so the index is non-negative exactly then |
| `Bollinger.BandsOrdered` | src/indicators/bollinger.rs:50-58 | bands ordered around the mean, width 0 exactly on a constant window, reach squared = k^2 times the variance |
| `Backtest.Run` | src/backtest/engine.rs:56-176 | the candle-by-candle loop gives the trades of the entry-to-entry definition, and metrics that describe them |
| `Backtest.LaterCandlesChangeNothing` | src/backtest/engine.rs:61-162 | no look-ahead: the trades of a history are a prefix of the trades of any longer one |
| `Backtest.ExitsAtTouch` | src/backtest/engine.rs:65-88 | every trade of any replay ends at the first candle after its entry that touches stop or target, and as a stop if it touches both |
| `Backtest.SettledResult` | src/backtest/engine.rs:89-107 | the result of a trade: the move to its exit level times the size, less slippage and impact on the exit notional, less fees on both notionals |
| `Backtest.StoppedTradesBound` | src/backtest/engine.rs:61-115 | no trade of any replay that ends at its stop loses more than the risk per trade, slippage on the exit notional and fees |
| `Watchdog.Run` | src/agents/watchdog.rs:56-113 | published commands alternate, and the flag holds if and only if the last one was a freeze |
| `RiskGate.AllowedEntry` | src/agents/risk.rs:170-275 | what an allowed entry guarantees of the account, the reward and the size |
| `Hmm.AdvanceInto` | src/strategy/hmm.rs:51-58 | one observation fills `next` with transition inflow times likelihood, for every state |
| `Hmm.Infer` | src/strategy/hmm.rs:39-62 | the loop returns every state with its filtered weight, the prior when there are no observations |
| `Hmm.FilterIsLaw` | src/strategy/hmm.rs:50-60 | whatever the numbers, the result is non-negative and sums to 1 |
| `Hmm.PathsComplete` | src/strategy/hmm.rs:50-60 | the enumerated hidden paths of a length ending in a state are all of them |
| `Hmm.PathsDistinct` | src/strategy/hmm.rs:50-60 | and none is enumerated twice, so a sum over them is a sum over all paths |
| `Hmm.EvidencePositive` | src/strategy/hmm.rs:50-60 | a transition matrix whose rows each lead somewhere makes the total path weight positive |
| `Hmm.MostLikely` | src/strategy/hmm.rs:64-68 | the answer is the last state of greatest weight |
| `Correlation.CovarianceBound` | src/research/ic.rs:73-93 | covariance squared never exceeds the product of the variances |
| `Correlation.ClampIdle` | src/research/ic.rs:89-93 | the clamp to [-1, 1] never changes the exact value |
| `Correlation.AffineIsPerfect` | src/research/ic.rs:67-94 | exact affine dependence gives exactly +1 or -1, by the sign of the slope |
| `Correlation.IcTracker.Record` | src/research/ic.rs:19-30 | after any observations the stored window coefficients are those recomputed from the whole history |
| `Significance.BinomialProbability` | src/research/significance.rs:31-41 | the coefficient loop over the smaller of k and n-k gives Pascal's coefficient, so the binomial probability; None exactly on bad input |
| `Significance.ChooseSymmetric` | src/research/significance.rs:35-40 | choosing k of n is choosing n-k of n |
| `Significance.WinRateSignificance` | src/research/significance.rs:3-13 | returns that p-value: the chance of a split at least as lopsided; None exactly on bad input |
| `Significance.RotateReturns` | src/research/significance.rs:43-52 | overwriting in place rotates the returns and keeps the signals |
| `Significance.RotateTwice` | src/research/significance.rs:22-24 | rotations compose, so the repeated rotations of one buffer accumulate to 1, 3, 6, 10, ... places |
| `Risk.RiskManager.OnPositionClosed` | src/execution/risk.rs:288-316 | books a close: count, day total, equity, peak, and the trip latch when a limit is met |
| `Risk.RiskManager.SetSizeMultiplier` | src/execution/risk.rs:114-117 | the multiplier, clamped to [0, 2] |
| `Risk.RiskManager.ResetDaily` | src/execution/risk.rs:318-324 | clears the day total and the trip latch |
| `Risk.ZeroMultiplierZeroSize` | src/execution/risk.rs:271-282 | a zero multiplier sizes every entry at zero |
| `Risk.CanOpenOnlyWhenClear` | src/execution/risk.rs:177-211 | an entry may open exactly when the account is not blocked, has a free slot and meets no limit (solvent account, positive daily limit) |
| `Positions.StepInPlace` | src/execution/position.rs:184-288 | the body of the exit loop over one position does what the step function says, field by field |
| `Positions.PositionBook.CheckExits` | src/execution/position.rs:167-295 | the in-place loop steps every position of the symbol, leaves the others alone, removes and reports each exiting one exactly once |
| `Positions.PositionBook.Reconcile` | src/execution/position.rs:142-148 | the book becomes exactly the given positions, the last of each id |
| `Positions.OverdueTick` | src/execution/position.rs:184-198 | once the hold limit has passed a tick closes the position if and only if its stop is not at entry |
| `Positions.OverdueTickOnBook` | src/execution/position.rs:184-198 | the same for the whole book: exactly the positions with the stop at entry survive, unchanged |
| `SurvivalScore.Assess` | src/agents/survival.rs:305-480 | the running integer score with its penalties, cap, floor, clamp, mode and multiplier equals the composed form |
| `SurvivalScore.CooldownHalts` | src/agents/survival.rs:355-371 | while a cooldown is active the mode is Frozen or Dead with multiplier 0 |
| `SurvivalScore.RatchetNeverLocks` | src/agents/survival.rs:402-420 | so with a non-negative setting and positive initial equity it never does |
| `Survival.SurvivalAgent.OnPositionClosed` | src/agents/survival.rs:227-303 | day rollover, remembered closes, streak, counters and the three cooldown triggers |
| `Survival.SurvivalAgent.CoolDown` | src/agents/survival.rs:258-297 | each trigger that is met moves the cooldown to its end unless it already lies later |
| `Survival.CountLosses` | src/agents/survival.rs:270-277 | the backwards loop stops at the first close older than the window |
| `Survival.SurvivalAgent.OnResetDaily` | src/agents/survival.rs:186-195 | clears the day counter and the cooldown and moves to the current date |
| `Survival.SurvivalAgent.OnUnfreeze` | src/agents/survival.rs:196-202 | clears the cooldown and unfreezes the account |
| `Survival.SurvivalAgent.Recompute` | src/agents/survival.rs:305-480 | the state is computed from the account and the agent's memory as they stand |
| `Survival.SurvivalAgent.ApplyState` | src/agents/survival.rs:482-500 | afterwards the account is frozen exactly in the halting modes and carries the state's multiplier: an operator's freeze is overwritten |
| `Survival.SurvivalAgent.MaybePublishFlatAll` | src/agents/survival.rs:209-225 | a flat-all is sent unless one was sent less than 60 seconds before; the sent ones stay at least 60 seconds apart |
| `Survival.SurvivalAgent.Refresh` | src/agents/survival.rs:122-136 | recompute, apply, publish; never a flat-all |
| `Survival.SurvivalAgent.OnClosedEvent` | src/agents/survival.rs:145-170 | remember, recompute, ask for a flat-all on death or drawdown, apply, publish, in that order |
| `Survival.LossesCounted` | src/agents/survival.rs:270-277 | the take_while count is the true number of losses in the window (24 hours at most) |
| `Survival.DailyCount` | src/agents/survival.rs:231-236 | daily_loss_count is the number of losses of the current day since the last reset |
| `Survival.CooldownNeverEarlier` | src/agents/survival.rs:258-297 | it never moves earlier, except by being cleared |
| `Execution.ExecutionAgent.OnTick` | src/agents/execution.rs:74-117 | a positive tick closes exactly the exiting positions, each settled and then published once at its price; other ticks do nothing |
| `Execution.ExecutionAgent.OnFlatAll` | src/agents/execution.rs:130-195 | every position is closed and published once, at the last mark or else its entry, and the book is empty |
| `Execution.ExecutionAgent.OnVerdict` | src/agents/execution.rs:196-369 | refused past any gate without effect; otherwise at most one position, with the proposal's symbol and side, the size, stop and target the manager's answer asks for, and a positive entry: the fill price, or the proposed one when the exchange reports none |
| `Execution.ExecutionAgent.Enter` | src/agents/execution.rs:292-344 | a repeated client id overwrites the book's entry while the open count still rises |
| `Execution.ExitsLeave` | src/agents/execution.rs:81-82 | the exits of a tick and the positions kept are together the positions held before |
| `Watchdog.WatchdogAgent.Check` | src/agents/watchdog.rs:82-113 | the flag holds exactly if a watched agent is stale, and a command is published exactly when that changes |
| `RiskGate.RiskAgent.OnBookTicker` | src/agents/risk.rs:98-112 | the spread in per cent of the mid price; crossed or non-positive quotes are ignored |
| `Quant.TrendOrders` | src/quant.rs:346-370 | against the trend is never sized above neutral, nor that above with the trend; a stricter penalty never sizes up |
| `Quant.TradeOutcomes.Record` | src/quant.rs:183-196 | the lists are the last 200 wins and the last 200 losses of the whole history |
| `Candles.OhlcvBuilder.Current` | src/data/ohlcv_builder.rs:93-95 | the view is the last of those candles |
| `Candles.RunsCut` | src/data/ohlcv_builder.rs:44-78 | the runs cut the stream exactly where a trade's bucket passes every earlier one |
| `Candles.CutUnique` | src/data/ohlcv_builder.rs:44-78 | there is only one such cut |
| `DataAgent.DataAgent.OnEvent` | src/agents/data.rs:64-110 | one turn of the receive loop: the log stays what the whole history of socket events publishes |
| `DataAgent.DataAgent.IngestAll` | src/agents/data.rs:66-76 | all of a symbol's builders take the trade, and the closed candles come in timeframe order |
| `Choppiness.ChoppinessIndex.Push` | src/indicators/choppiness.rs:36-54 | the running sum stays the sum of the window's true ranges |
| `Choppiness.ChoppinessIndex.Next` | src/indicators/choppiness.rs:36-69 | nothing until the window is full, then the index recomputed from the history |
| `Choppiness.Covering` | src/indicators/choppiness.rs:36-67 | from any position on, true ranges sum to at least the high-low range they span |
| `Choppiness.RatioAtLeastOne` | src/indicators/choppiness.rs:66-67 | the ratio inside the logarithm is at least 1 if and only if the true ranges reach 1e-9 |
| `Bollinger.BollingerBands.Next` | src/indicators/bollinger.rs:34-60 | running sums give the band recomputed from the window |
| `Bollinger.RunningVariance` | src/indicators/bollinger.rs:47-49 | sum_sq/n - mean^2 is the mean squared deviation, never negative, so the max with 0 is idle |
| `Adx.AdxIndicator.Smooth` | src/indicators/adx.rs:76-92 | seeding and Wilder's update of the three accumulators |
| `Adx.AdxIndicator.AddDx` | src/indicators/adx.rs:105-113 | seeding and Wilder's update of the average |
| `Adx.MovementBounds` | src/indicators/adx.rs:55-74 | directional movements are non-negative and together at most the true range |
| `Adx.DiBounds` | src/indicators/adx.rs:97-103 | DI+ and DI- are non-negative with sum at most 100, and DX lies in [0, 100] |
| `Adx.FlippedReading` | src/indicators/adx.rs:55-103 | upside-down prices exchange DI+ and DI- and leave ADX alone |
| `Adx.RisingReading` | src/indicators/adx.rs:45-119 | an unbroken rise reads ADX 100 with DI- 0 |
| `MonteCarlo.DeterministicShuffle` | src/backtest/monte_carlo.rs:53-59 | the in-place loop with its wrapping generator |
| `MonteCarlo.MaxDrawdownPct` | src/backtest/monte_carlo.rs:29-46 | the drawdown loop |
| `MonteCarlo.RunningMaxIsMaximum` | src/backtest/monte_carlo.rs:33-36 | the running maximum bounds 0 and every earlier equity and is one of them |
| `MonteCarlo.DrawdownConfidenceIntervals` | src/backtest/monte_carlo.rs:8-27 | simulate, sort, take percentiles; None exactly on empty input |
| `Metrics.NetIsSum` | src/backtest/metrics.rs:33-38 | gross profit less gross loss is the sum: no trade is lost or counted twice |
| `Metrics.DrawdownLoop` | src/backtest/metrics.rs:57-76 | the second drawdown loop computes the same number as the Monte Carlo one |
| `TailRisk.OrderDoesNotMatter` | src/portfolio/var.rs:1-24 | both depend only on the multiset of returns |
| `Memory.TrailingStreak` | src/learning/memory.rs:147-161 | the reversed loop gives the signed trailing run |
| `Memory.StreakMeaning` | src/learning/memory.rs:146-161 | what the streak says about the last outcomes, capped at 5 |
| `Memory.NetSplits` | src/learning/memory.rs:124-139 | net = gross profit - gross loss, and wins + losses = trades |
| `Memory.MarginalsOfOverall` | src/learning/memory.rs:71-87 | by_strategy, by_symbol and by_hour each sum to overall |
| `Memory.MarginalsOfStrategy` | src/learning/memory.rs:73-86 | by_strategy_regime over regimes and by_strategy_symbol over symbols give by_strategy |
| `Lessons.Collect` | src/learning/lessons.rs:145-273 | a map loop lists every bucket the rule fires on, once, whatever the iteration order |
| `Lessons.Combine` | src/learning/lessons.rs:279-292 | the additive statistics of several buckets |
| `Policy.LearningPolicy.Evaluate` | src/learning/policy.rs:55-76 | the fold over the lessons: a block anywhere wins, the rest multiply, add and take the maximum |
| `Backtest.LookForEntry` | src/backtest/engine.rs:133-156 | the first strategy answer that passes every gate, none before the warm-up |
| `Backtest.ReplayLaws` | src/backtest/engine.rs:61-162 | ordered, non-overlapping spans; bars_held = exit index - entry index |
| `Backtest.SizeWithinRisk` | src/backtest/engine.rs:187-192 | stop distance times size never exceeds the risk per trade |
| `Sorting.SortPermutation` | src/portfolio/var.rs:5-6 | sorting finite numbers depends only on the multiset of values |
| `Survival.TrailingLossesMeaning` | src/agents/survival.rs:253-302 | the run consists of losses and is preceded by none |
| `Survival.CooldownStep` | src/agents/survival.rs:253-302 | one operation moves the cooldown to the later of itself and what that operation calls for, or clears it |
| `Execution.ExecutionAgent.CloseExits` | src/agents/execution.rs:82-116 | each exit is settled before and published after its await, and the balance holds in between |
| `Execution.ExecutionAgent.Handle` | src/agents/execution.rs:73-367 | one turn of the loop keeps the accounts; only a reused id can be overwritten |
| `Bollinger.BollingerBands.Push` | src/indicators/bollinger.rs:34-42 | both running sums stay those of the window |
| `Positions.OpenStep` | src/execution/position.rs:199-288 | the ways a tick can leave a position open, exactly |
| `Policy.BlockedIff` | src/learning/policy.rs:64-66 | blocked if and only if some applying lesson blocks |
| `Backtest.TradesAreSpans` | src/backtest/engine.rs:61-162 | trades and spans correspond one to one |
| `Backtest.SpansOrdered` | src/backtest/engine.rs:118-122 | every span begins no earlier than the one before it ended |
| `Hmm.EvidenceIff` | src/strategy/hmm.rs:51-58 | the total path weight is positive if and only if some state is so reachable, whatever the observations |
| `Hmm.NeverRestartedIff` | src/strategy/hmm.rs:77-83 | the filter has never restarted if and only if some state is so reachable |
| `Freeze.MultiplierIsLast` | src/agents/survival.rs:483 | the multiplier is that of the state scaled last |
| `Pipeline.OrdersAccounted` | src/agents/risk.rs:112-297 | the same of every order anywhere in the pipeline at any moment, with the moments as witnesses |
| `Pipeline.StageTrail` | src/agents/risk.rs:112-240 | behind every signal the risk agent works on stand the gates it has passed, each at its own moment |
| `Pipeline.PublishedBound` | src/agents/risk.rs:237-285 | a published size is positive and at most 3.6 times the size calculated for that order's own signal; the policy factor is 0.5, 1 or 1.2 |
| `Pipeline.PolicyGivesFactor` | src/agents/risk.rs:132-157 | whatever lessons of one extraction (or none) the policy holds, an allowing verdict gives 0.5, 1 or 1.2 |
| `Pipeline.EntryWithinBounds` | src/agents/execution.rs:386-401 | the manager's answer takes it to at most 5.4 times |
| `Pipeline.NoNewOrders` | src/agents/risk.rs:237-285 | and so was every order in the pipeline |
| `Pipeline.InFlightStep` | src/agents/execution.rs:196-279 | orders in flight plus orders dispatched grow only when the risk agent calculates a size |
| `Protocol.FrozenStep` | src/agents/control.rs:93-104 | which steps of which agents set and clear the frozen flag |
| `Protocol.MultiplierStep` | src/agents/survival.rs:483 | the multiplier changes in the first step of an apply and nowhere else |
| `Protocol.DispatchStep` | src/agents/execution.rs:196-279 | an entry is dispatched exactly where the execution agent reads a verdict that passes its tests |
| `Protocol.ManagerReply` | src/agents/manager.rs:483-500 | whatever the reply says, the size factor is in [0.1, 1.5] and the offsets within 50 bps; values in range are kept, missing ones neutral |
| `Statistics.VarianceZeroIff` | src/indicators/bollinger.rs:47-49 | the mean squared deviation vanishes exactly on constant sequences |
| `Metrics.FromTrades` | src/backtest/metrics.rs:27-118 | every field, Sharpe and Sortino included, by what it means for the list of trades; net is their plain sum |
| `Metrics.SharpeSign` | src/backtest/metrics.rs:79-86 | the Sharpe ratio is positive (negative) exactly for a positive (negative) net result that does not come from equal trades |
| `Backtest.StopLossBound` | src/backtest/engine.rs:85-103 | a stop exit loses exactly stop distance times size plus slippage on the exit notional plus fees, the first at most the risk per trade |
| `DataAgent.ClosedByTrade` | src/agents/data.rs:66-91 | a trade closes the same candle once for every time its timeframe is configured |
| `RiskGate.RiskAgent.OnPreSignal` | src/agents/risk.rs:113-297 | allowed if and only if every gate admits the signal; size, multiplier and thresholds of the verdict, allowed or refused |
| `Quant.ComputeSizing` | src/quant.rs:319-373 | the running multiplier is the clamped product of its factors, in [0.1, 3]; 1 when disabled |
| `Sight.GateSees` | src/agents/manager.rs:116-156 | a gate admits exactly while the last survival state in the part of the log its agent has read is not a halting one |
| `Sight.OverrunIsForever` | src/agents/bus.rs:54-58 | an agent more than 4096 events behind never reads another event |
| `Protocol.CommandsObeyed` | src/agents/control.rs:93-104 | whoever reads an operator's command obeys it; the survival event task obeys an unfreeze too |
| `Execution.EntryRequested` | src/agents/execution.rs:386-414 | the request sent for a verdict has the proposal's symbol, side and entry, and the size, stop and target the answer asks for |
| `Execution.OffsetFavours` | src/agents/execution.rs:460-467 | a positive offset moves a level in the trade's favour on both sides, a negative one against it |
| `Execution.NeutralIsApproval` | src/agents/execution.rs:386-401 | an adjustment by factor 1 and offsets 0 asks for exactly what an approval asks for |
| `Execution.StopCosts` | src/execution/position.rs:298-303 | a close at the stop of a fresh position loses exactly its size times the distance from entry to stop |
| `Positions.FreshExits` | src/execution/position.rs:199-260 | for a fresh position TakeProfit if and only if the price reaches the target, StopLoss if and only if it reaches the stop |
| `Positions.AtrTrail` | src/execution/position.rs:222-243 | with ATR a trailing stop stays the configured multiple of it behind the best price since activation, and never loosens |
| `Positions.OverdueFrom` | src/execution/position.rs:192-198 | overdue from one second after the hold limit on |
| `Execution.OpenedOverdueFrom` | src/agents/execution.rs:61-68 | a position the agent opens is overdue from 1801 seconds after its opening on |
| `Risk.LimitMetIff` | src/execution/risk.rs:298-316 | a limit is met exactly if equity is the drawdown percentage below the peak or the day has lost the daily percentage of the equity |
| `RiskGate.ValidSignalIff` | src/execution/risk.rs:213-265 | what validation asks, without a division: reward against risk, spread, and a move that covers edge and costs |
| `RiskGate.FundingLaws` | src/agents/risk.rs:216-221 | positive funding blocks longs from the threshold on, negative funding shorts, never both |
| `RiskGate.ThresholdLaws` | src/agents/risk.rs:132-140 | lessons move the confidence threshold point by point within 0 and 100 and only raise the floor of the language model |
| `RiskGate.ComposedProduct` | src/agents/risk.rs:237-270 | the size is the base scaled by the policy's factor and by the quant engine's, 1 without an answer |
| `Costs.ImpactSquared` | src/execution/tcm.rs:25-30 | impact squared grows with the size over the volume: the square-root law |
| `Costs.RoundTripLaws` | src/execution/tcm.rs:12-23 | both ways fee, slippage and impact, never less for a larger trade |
| `Backtest.QualifiesIff` | src/backtest/engine.rs:133-156 | what an entry must offer, without a division |
| `Backtest.PercentMeaning` | src/backtest/engine.rs:104-107 | the percentage of a Long is of its entry, that of a Short of its exit |
| `Hmm.NearerIsLikelier` | src/strategy/hmm.rs:71-75 | of two states of equal spread, the one whose mean is nearer to the observation is likelier |
| `Hmm.PeakLikelihood` | src/strategy/hmm.rs:71-75 | at its mean the density is 1 over the spread times the root of two pi |
| `Adx.ApproachesConstant` | src/indicators/adx.rs:105-113 | under constant DX the average approaches it, its distance shrinking by 1 - 1/p a candle |
| `Choppiness.TrueRangeIsSpan` | src/indicators/choppiness.rs:29-34 | the true range spans the candle and the previous close |
| `Choppiness.IndexScale` | src/indicators/choppiness.rs:60-68 | 0 for a straight move, 100 for a range run through once per candle, strictly rising in between |
| `SurvivalScore.DrawdownCosts` | src/agents/survival.rs:325-333 | at least k points off exactly from k sixtieths of the auto-flat drawdown on, at most 60 |
| `SurvivalScore.DailyCosts` | src/agents/survival.rs:335-345 | at least k points off exactly from k sixths of a per cent of daily loss on, at most 40 |
| `SurvivalScore.StreakCosts` | src/agents/survival.rs:347-353 | eight points off for each loss of a streak after the first, at most 30 |
| `SurvivalScore.ExcessCosts` | src/agents/survival.rs:425-439 | at least k points off exactly from a projected drawdown k fifths of a per cent beyond the threshold on, at most 20 |
| `SurvivalScore.FloorCosts` | src/agents/survival.rs:388-405 | 30 off below 5 per cent of the initial equity above the death line, 15 below 10 per cent, else none |
| `SurvivalScore.OneSign` | src/agents/survival.rs:305-459 | a spotless account scores 100; panic news, euphoria, a streak of five and a cooldown alone give 75, 90, 70 and 20, with their modes and multipliers |
| `SurvivalScore.DeepDrawdown` | src/agents/survival.rs:325-459 | a drawdown at the auto-flat threshold alone gives 40 and Defensive, with panic news 15 and Frozen |
| `Survival.HistoryIsLast200` | src/agents/survival.rs:241-244 | pnl_history, from which drawdowns are projected, holds the results of the last 200 closes |
| `Survival.FlatAllowedIff` | src/agents/survival.rs:210-219 | a second flat-all is allowed from 60 seconds after the first on |
| `MonteCarlo.ShufflePlaces` | src/backtest/monte_carlo.rs:53-59 | each step puts the element the generator draws into the last open place and goes on with the rest |
| `MonteCarlo.GeneratorIsReversible` | src/backtest/monte_carlo.rs:53-56 | the wrapping generator has an inverse: no two states lead to the same one |
| `MonteCarlo.DrawdownMeaning` | src/backtest/monte_carlo.rs:37-41 | the percentage of the running maximum that is missing; none before the first profit |
| `MonteCarlo.RankNearest` | src/backtest/monte_carlo.rs:48-51 | the percentile is the element nearest to p of the way |
| `Metrics.AveragesSplitNet` | src/backtest/metrics.rs:40-56 | wins times the average win less losses times the average loss is the net result |
| `Metrics.DownsideMeaning` | src/backtest/metrics.rs:87-99 | the Sortino deviation is the root mean square over all trades with winners counted as 0 |
| `Quant.TrendShares` | src/quant.rs:350-358 | a trend against the trade takes 30 per cent off the product, one with it adds 15 |
| `Quant.KellyMeaning` | src/quant.rs:320-324 | the Kelly share of the base risk, never more than twice it |
| `Quant.PenaltyShares` | src/quant.rs:363-370 | the correlation penalty is the share of the product that is left; one of 1 or more leaves it whole |
| `Lessons.StrategyRuleIff` | src/learning/lessons.rs:162-202 | derated or boosted exactly by the share of wins among enough trades, a boost also by gross profit at least three halves of gross loss |
| `Lessons.BucketRulesIff` | src/learning/lessons.rs:204-273 | when a regime is blacklisted, a symbol paused and high confidence distrusted, without a division |
| `Lessons.DrawdownRuleIff` | src/learning/lessons.rs:121-139 | everything is paused exactly after an hour of at least two trades that lost the configured percentage |
| `Lessons.LessonTable` | src/learning/lessons.rs:117-273 | what each kind of lesson does, for how long, and in which buckets |
| `Policy.FloorIsHighest` | src/learning/policy.rs:67-76 | the confidence asked of the language model is the highest any matched lesson asks |
| `Memory.AgreesWithMetrics` | src/learning/memory.rs:124-139 | the learning memory and the backtest metrics count the same wins, gross profit, gross loss and net |
| `Memory.HourMeaning` | src/learning/memory.rs:86-87 | the hour key: the exit time lies in that hour of its day |
| `Memory.ConfidenceMeaning` | src/learning/memory.rs:89-92 | the confidence key: tens of per cent, the last one open-ended |
| `Memory.RatiosMeaning` | src/learning/memory.rs:141-145 | averages, win rate and profit factor by what they multiply back to |
| `Watchdog.WatchdogAgent.StaleFrom` | src/agents/watchdog.rs:84-94 | an agent is stale from one second after the timeout on |
| `Correlation.CoefficientsOfWindows` | src/research/ic.rs:19-30 | a coefficient is on the list exactly if some stretch of as many consecutive observations has it |
| `Significance.TriangleMeaning` | src/research/significance.rs:22-24 | after t steps the rotations by 1, 2, ..., t have added up to t(t+1)/2 places |

## Left out

- f64 rounding, NaN and infinity; where an infinity decides a branch (zero equity, a profit factor without losses) the branch is kept.
- Significance.BinomialProbability: the exponents are cast to i32 in the source, so the statement is about counts below 2^31.
- Correlation.IcTracker.Record: the information ratio over the stored coefficients (src/research/ic.rs:44-60) is a single expression and not modelled, nor are non-finite observations.
- Positions.PositionBook.CheckExits: peak and trough prices, partial take-profit fields and `update_price` are not modelled; nothing the exits depend on reads them. ATR is kept, although every opened position has it at 0.
- Positions.KeptUntouched: without ATR, which every opened position has at 0, and for positive prices; `AtrTrail` says where a trailing stop stands with ATR.
- Risk.RiskManager.OnPositionClosed: reason strings are not modelled.
- Risk.CanOpenOnlyWhenClear: the equivalence is for positive equity and a positive daily limit; with zero equity an f64 loss becomes infinite and refuses, with negative equity the percentage turns negative and permits, as the function has it.
- Survival.SurvivalAgent.OnClosedEvent: the separate clock readings of one handler are one moment; fields that are only written (daily_pnl, daily_peak_equity, funding_rate, last_loss_at, last_state) and reason strings are not modelled.
- Survival.CooldownHolds: assumes a clock that does not go back, and no daily reset or unfreeze in between, which clear the cooldown.
- Execution.ExecutionAgent.OnVerdict: limit-order planning, execution-quality records, the contents of the protective orders and the hash behind the client id are not modelled; whether the exchange accepts and its average price are inputs.
- Execution.ExecutionAgent.Run: paper mode, so no equity refresh; the other tasks may freeze, unfreeze, rescale and reset at every await.
- Pipeline.DispatchBound: the open count is looked at when an order is admitted and not again at dispatch, and the notional cap applies before the policy, quant and manager factors; neither is claimed of the dispatched entry.
- Protocol.DispatchStep: the tests from the veto to `is_blocked` and the dispatch after them (src/agents/execution.rs:197-279) are one step, without an await in between but with several locks: a freeze that lands between `is_blocked` and `place_order` is not distinguished from one that lands after the dispatch.
- Freeze.FreezeSafety: LLM contents, timeouts, the spread and the funding rate a gate sees are free choices of a step; no equity refresh or close is tied to a particular step, they may happen at any moment.
- Survival.Drive: the handlers run one after another, with no other task touching the account between two locks of one handler; interleavings of that kind are `Freeze`'s.
- Hmm.BayesIff: transition entries are taken to be non-negative, as probabilities are; the constructor does not check it, and with negative entries path weights are not weights.
- Policy.LearningPolicy.Evaluate: the i16 threshold deltas are summed without overflow; summaries and active-lesson telemetry are not modelled.
- Memory.Build: 32-bit counters do not overflow.
- Quant.ComputeSizing: the cited lines multiply and clamp; the estimators behind the factors (Kelly fraction, volatility, Kalman filter, correlation cluster) and the VaR and IC checks are inputs.
- Choppiness.IndexNonNegative: for a zero true-range sum the f64 logarithm is minus infinity; the statement is for positive sums.
- Backtest.Run: indicator state, regime selection and strategy scoring are one function from the candles so far to the answers; a zero price makes the f64 percentage infinite, here 0.
- Candles.OhlcvBuilder.Ingest: timestamps outside chrono's range, for which the bucket falls back to the trade time.
- Watchdog.Run: the heartbeat loop ending on a lag error, after which every agent would look stale.
- Network, persistence, dashboards, LLM prompts and JSON parsing, configuration, logging and status formatting.
- Strategy scoring, regime thresholds, alpha gates, exposure sums and A/B rules: single expressions or branches.
- Startup reconciliation: an agent starts from any book whose size is the open count.
