# Verification of the trading scripts

Models of the decision loops, evidence loops and operator protocols under `scripts/`, with proofs
of what they promise: no look-ahead, halt safety, exactly when dry runs cannot fool the health check,
accounting that telescopes, listings that can be compared, folds that tile, candles that can be
trusted, and exactly when audit lines are lost.

| module | models |
|---|---|
| `Backtest`, `FullSystemSimulator` | the bar-by-bar simulator: its step function, and the object that carries it out in place |
| `BacktestCausality`, `BacktestSafety`, `BacktestProtocol`, `BacktestSweeps`, `BacktestTerminals`, `BacktestBooks`, `BacktestTimeline`, `BacktestExcursion`, `BacktestFunnel` | what every run of the simulator keeps |
| `LiveAudit`, `HealthVerdict`, `DryRuns`, `OrphanTerminals`, `DryRunVerdicts`, `DryRunOutcomes` | the live-audit health check and what its verdict means; when dry runs change its pairing, and exactly when its verdict |
| `LongOnly`, `CostSweep`, `EquityCurves` | the long-only accounting loop, the cost sweep with its bisection, and four equity curves |
| `ProjectTree`, `ProjectMap`, `ProjectMapCheck`, `ProjectMapTwins` | the trie behind the project map, its listing, and what `--check` can tell apart |
| `WalkForward` | walk-forward folds, the parameter grid and the frozen choice |
| `HourlyFolds` | gapless hourly folds of the strategy evidence |
| `CandleIntake`, `PollLoop` | fail-closed candle validation and the live polling loop |
| `AuditRetention` | archive, prune and crash protocol of the audit trail |
| `Drawdown`, `Tenure` | online drawdown, duration, tenure and switch counts |
| `Arithmetic`, `Wrappers` | shared facts and the option and result types |

`dafny verify dfyconfig.toml` checks the whole project.

## How the source is read

- The simulator's engine, exchange, risk controller and router are a `World`: arbitrary functions
  of the log of all calls made to them so far. They are deterministic and may answer anything else,
  so a statement about runs holds for every such collaborator. Two laws are assumed where a lemma
  names them: `StampsTouchOneTrade` (stamping a trade rewrites that trade and may move it in the
  list, but changes no other trade and adds none) and `KeepsMetadata` (a position's `simulation`
  entry changes only when the simulator writes it, a closed position does not come back with it, and
  a trade carries a copy of it). They describe the positions and trades of
  `src/trading_agent/execution/paper_exchange.py` (lines 437-440, 733-750, 862-868 and 920-924).
- A call log also holds the in-place writes to positions and trades (`Attach`, `Touch`, `Widen`,
  `StampTrade`), so the order of writes and reads is kept.
- Money, prices and ratios are exact reals. Timestamps are integers, except in the health check,
  where they are reals in seconds.
- JSON values are read once: a pid is null or an integer, `execute` is absent or a truth value,
  event names are a datatype. `process_alive` is the set `gone` of pids for which it answers False.
- Crossover policies read the cooldown from the alert texts, fill-cycle policies from the risk
  status; halt safety is stated with the reading each branch uses.
- A path of the project map is its list of parts.
- A run of an archive store is a list of steps, each a phase of the scripts or an append by the
  runner; a crash may follow any phase, and a manifest may be torn while it is rewritten.
- What the exchange and the callback do during a polling loop is a schedule, so statements over
  every schedule cover every behaviour.
- Where a lemma about accounting asks for a positive sell factor, costs below the whole price are
  meant; `ClosedFormIsExact` says what becomes of the closed form without it, and the cost sweep,
  which the script runs over a range of costs, is proved without it.

## What the code does not do

Each point is a lemma about the code as it is.

- `check_live_audit.py`: a dry run can make a dead scheduler look healthy when terminals without
  pid have to fall back to the newest open key, against the docstring of lines 143-144
  (`DryStartCanHideADeadScheduler`). `VerdictIsDecided` says exactly when some dry runs change some
  verdict, `VerdictGuardIsExact` gives a simpler condition for logs in which no pid starts twice,
  and `GuardIsExact` says when they change the pairing, which is more often.
- `_diagnose_ac14_loss.py`: after the forced close the quantity is not reset, so line 115 adds the
  sold position again (`LossCountsOpenPositionTwice`), although the docstring promises the same
  accounting as the AC14 oracle.
- `evidence_ac14.py`: the curve marks a fill of the next open at the present open, and the last cell
  leaves out the liquidation cost (`OracleMarksBeforeTheFill`, `OracleOmitsLastCost`). A cell
  before the last looks one open ahead exactly on bars that enter or leave the market
  (`CellLooksAhead`).
- `evidence_ac14.py` and `evidence_ac14_promoted.py` charge different costs for the same parameters:
  the first a quarter of the spread and all of commission and slippage on each side, the second
  half of everything (`OraclesChargeAlike`).
- `generate_project_map.py`: a directory that pruning empties prints like a file
  (`EmptiedDirectoryLooksLikeAFile`). It is sorted as a directory, so its place can still give it
  away (`OutOfPlaceIsTold`). `ListingTellsApart` is the exact condition for taking it for a file,
  and `ListingHasTwin` the exact condition for a listing to fit other visible paths at all.
- `fast_wfo.py`: for a timeframe longer than 30 days the fold loop never ends
  (`FoldLoopEnds`, `LongTimeframesHaveNoBar`).
- `audit_retention.py`: a line that the runner appends between the copy and the truncation is lost
  (`LateAppendIsLost`). `LinesAreLostOnlyByLateAppends` is the exact condition: lines are lost if
  and only if a truncation comes after an append behind its copy.
- `audit_retention.py`: a crash while the manifest is saved ends retention for good, since every
  later archive and prune fails to read it (`TornManifestIsPermanent`).
- `audit_retention.py`: the second and later archives of a day are never pruned
  (`SuffixedArchivesStayForever`).

## Model

| member | source | states |
|---|---|---|
| BacktestCausality.NoLookAhead | scripts/full_system_backtest.py:1017-1376 | Two price tables that agree before bar i, and on bar i's timestamp and open, give the same calls, orders, logs, funnel rows and errors up to bar i's decision, whatever comes later, for every engine, risk controller and router and every indicator and signal function that is itself causal. |
| BacktestCausality.RunBarsIsCausal | scripts/full_system_backtest.py:1017-1407 | The whole state after `bar` bars depends on the first `bar` rows and signals only. |
| BacktestSafety.HaltedCallsAreGated | scripts/full_system_backtest.py:1186-1208 | In every run, aborted or not, a runtime call happens at cadence; a crossover policy is called only with the breaker off and no cooldown alert; a fill-cycle policy is called under a breaker or cooldown only while it holds a positive quantity. |
| BacktestSafety.RunIsSafe | scripts/full_system_backtest.py:1065-1407 | In every run, aborted or not, every runtime call is gated and no trade was stamped twice; after any number of completed bars the logged breakers are as many as the off-to-on edges, the equity curve has one point a bar, and the funnel has one settled row a bar in bar order, as many of them marked called as there were runtime calls. |
| BacktestSafety.EveryCallIsGated | scripts/full_system_backtest.py:1196-1208 | Halt safety of a log holds at each runtime call in it, measured on the log before that call. |
| BacktestSafety.RiskCheckKeeps | scripts/full_system_backtest.py:1065-1084 | A risk check that finds the breaker on logs it exactly when the check before found it off; it never calls the runtime and stamps nothing twice. |
| BacktestSafety.CycleBarKeeps | scripts/full_system_backtest.py:844-985 | A fill-cycle bar keeps halt safety and single stamping, and leaves a row that is called exactly when its terminal is the runtime's own, never `cycle_check`. |
| BacktestSafety.NativeBarKeeps | scripts/full_system_backtest.py:1203-1376 | A crossover bar keeps halt safety and single stamping, and leaves a row that is called exactly when its terminal is the runtime's own, never `cycle_check`. |
| BacktestTerminals.EveryRowIsExplained | scripts/full_system_backtest.py:1166-1376 | On every row of every run the terminal names the branch the bar took and what led there, read off the call log at the bar's risk check and decision: `bootstrap` exactly on the first bar; `no_signal` only where the prior closed bar has no signal, or the router was asked and declined; `cadence` only off cadence with a signal; `circuit_breaker` and `cooldown` only at cadence with the breaker on, or a cooldown alert, and something to do; `already_long` and `flat_exit` only with and without an open position; `risk_entry_halt` only under a halt with quantity zero; `runtime_` only with that call's own result, and then with the ids of its orders where a crossover policy was called. The position before is the one at the bar's opening clock, the position after the one at its end. |
| BacktestTerminals.SignalIsPrior | scripts/full_system_backtest.py:1021-1029 | A bar has a signal other than zero if and only if it is not the first and the bar before it has that signal. |
| BacktestTerminals.CooldownIsSaid | scripts/full_system_backtest.py:1207 | The cooldown reading is on if and only if some alert has the word in it. |
| BacktestProtocol.AbortsAreExact | scripts/full_system_backtest.py:1079-1160 | A run ends with an error if and only if its log gets to a point, with everything stamped there, where that error is due: a breaker that has gone on without an alert; routing at cadence without router or provider; a decision that is taken up and no runtime for it, or one of another name, symbol or timeframe; a cycle position that cannot be read, or an answer whose preparation was rejected. |
| BacktestProtocol.RunIsLawful | scripts/full_system_backtest.py:1017-1376 | Every run stops for what is wrong at the end of its log and completes if nothing is. Every call obeys the rule of where the log had got to: the router is asked only at cadence with the breaker off, with the row of the prior bar, whether the position is flat, and its owner; a runtime is fetched if and only if the decision opens or manages; runtime calls get the features of the prior bar, or for cycles the account as reported; stamps carry the bar, the kind of price and the breaker as reason where a breaker closed the trade; entries carry the bar. The router's decisions and the breaker's trips, with time and first alert, are noted in order. |
| BacktestProtocol.CalledRuntimesFit | scripts/full_system_backtest.py:1136-1160 | In every run a routed runtime call goes to the runtime provided for the decision just taken, named as chosen, for this symbol and timeframe; any other call goes to the configured runtime, and under adaptive routing only with the breaker on or after the router declined. |
| BacktestProtocol.DependableRunsComplete | scripts/full_system_backtest.py:1079-1160 | With alerts for every breaker, router and provider in place, fitting runtimes, readable positions and no rejected preparation, every run completes. |
| BacktestSweeps.StampsArePrompt | scripts/full_system_backtest.py:1055-1077 | In every run no closed trade waits: after each mark, each check with the breaker on, and each answer that is booked, every trade in the history is stamped before anything else is done. |
| BacktestSafety.DecideBarKeeps | scripts/full_system_backtest.py:1017-1376 | All of a bar up to its decision keeps the invariants even when it aborts, and settles its funnel row. |
| BacktestSafety.EveryTradeIsStampedOnce | scripts/full_system_backtest.py:729-787 | At the end of every completed run of at least one bar each trade the exchange lists has a stamp, and over the whole run no trade id is stamped twice. |
| BacktestSafety.OnlyNewTradesAreStamped | scripts/full_system_backtest.py:740-787 | What a stamping pass writes are stamps for trades of the history not stamped before, each with this bar's time, index, price and reference type. |
| BacktestSafety.EveryNewTradeIsStamped | scripts/full_system_backtest.py:740-787 | A stamping pass stamps every trade of the history that had no stamp before. |
| BacktestExcursion.RunExcursionsAreFolds | scripts/full_system_backtest.py:713-727 | Over every run the minimum and maximum of an open position with a simulation entry are the least and greatest of its entry reference and all prices marked since that entry, whatever marked them; and on every stamped trade mae <= mfe. |
| BacktestExcursion.ExcursionIsTheFold | scripts/full_system_backtest.py:713-727 | The same for every log in which each mark of such a position follows its widening, and each write is computed from what the exchange said just before. |
| BacktestExcursion.EveryStampIsOrdered | scripts/full_system_backtest.py:760-785 | Every stamp in such a log has mae <= mfe. |
| BacktestExcursion.RunStampsShowExtremes | scripts/full_system_backtest.py:740-787 | In every run each stamped trade with a simulation entry has (1 + mae/100) and (1 + mfe/100) times its entry price equal to the least and the greatest of its entry reference and all prices marked while its position was open, and the time of that entry; without an entry both excursions are zero and the time is the trade's own, or the stamp's if it has none. |
| BacktestExcursion.StampIsOrdered | scripts/full_system_backtest.py:760-785 | A stamp with simulation metadata has mae <= the entry reference's own excursion <= mfe; one without has both zero. |
| BacktestExcursion.RunIsDisciplined | scripts/full_system_backtest.py:1017-1407 | Every run is such a log: no price is marked on an open position with a simulation entry without widening it first, and every write follows from the position or history reported just before it. |
| BacktestBooks.RunIsBooked | scripts/full_system_backtest.py:928-1369 | In every run, completed or aborted, the trade log is exactly the fills the runtime reported, in order, at the open of the bar after the decision, each with the equity right after it was entered, and each native sale with the profit against the purchase it answers; the open entry is that of the last native purchase, with its strategy; the signal log is exactly one entry for each call of a crossover policy and one for each positive fill of a cycle, in order, each with its side, times, price and answer; the runtime is called at most once a bar and sees exactly the closed bars; and after each call every purchase, in order, gives an open position its entry context at that open, or only its time when a later fill must keep the clock. |
| BacktestBooks.NativeOrdersAreBooked | scripts/full_system_backtest.py:1313-1369 | The native order loop books every order at its filled amount, or the requested one when that is zero; a sale takes its profit from the last purchase and clears it. |
| BacktestBooks.CycleOrdersAreBooked | scripts/full_system_backtest.py:946-979 | The fill-cycle order loop books exactly the orders with a positive fill, each with profit zero, and one signal entry for each with its side. |
| BacktestTimeline.RunFollowsThePath | scripts/full_system_backtest.py:1052-1407 | Every completed run marks open, then low if it is below the open, then close, on a clock at the bar's open and then its close, and samples equity right after each close; an aborted run does so up to its last bar, of which it plays the open and nothing else; in every run each stamp and each entry context carries the current clock and the current mark. |
| BacktestTimeline.DecidesOnTime | scripts/full_system_backtest.py:1017-1376 | Up to its decision a bar plays its open and nothing else. |
| BacktestFunnel.FunnelIsPassive | scripts/full_system_backtest.py:1045-1055 | Runs with and without the execution funnel make the same calls, keep the same logs and fail alike. |
| FullSystemSimulator.Simulator.Run | scripts/full_system_backtest.py:987-1419 | The method changes the object's fields to exactly the state of the specified run, and rejects a negative start, a non-positive cadence and an empty window without touching anything. |
| FullSystemSimulator.RunFresh | scripts/full_system_backtest.py:987-1419 | A simulator made and run once: refused arguments and windows leave it as made; otherwise, completed or aborted, its fields are halt-safe, stamped once, booked, on the path, with every funnel row explained, and complete if nothing aborted. |
| FullSystemSimulator.RunsAreReliable | scripts/full_system_backtest.py:1017-1407 | All of those hold together of every run of the step function. |
| FullSystemSimulator.Simulator.StampNewTrades | scripts/full_system_backtest.py:729-787 | The loop over the whole history, skipping the stamped set, is the specified stamping. |
| LiveAudit.Runs | scripts/check_live_audit.py:90-115 | The loop over a list and an insertion-ordered dictionary computes the fold that pairs starts with terminals: a re-assigned open pid keeps its place, a terminal without pid falls back to the newest open key. |
| LiveAudit.Handle | scripts/check_live_audit.py:95-114 | One event keeps the dictionary equal to the open pids in order, each pointing at the latest run of its pid. |
| LiveAudit.StableSortIsStable | scripts/check_live_audit.py:151 | The order by timestamp is sorted and keeps the file order of equal timestamps. |
| LiveAudit.SortIsPermutation | scripts/check_live_audit.py:151 | Sorting loses and adds no event. |
| LiveAudit.SelectCriticalEmpty | scripts/check_live_audit.py:118-129 | No critical name is reported exactly when every critical event is outside the window or belongs to a dry run's non-null pid. |
| LiveAudit.ValidateAuditHealth | scripts/check_live_audit.py:132-198 | The sequence of checks returns the specified verdict. |
| HealthVerdict.AcceptanceIsExact | scripts/check_live_audit.py:141-192 | A log is accepted if and only if the limits are positive, it is not empty, no event is more than 60 s ahead, no failed, interrupted, unknown, non-terminal, unprotected or blocked event under a pid without a logged dry start lies in the window, there is an execution run, the last one to start was active at most the maximum age ago, and, if it has no end, its process is not gone and it started at most the maximum run time ago. |
| HealthVerdict.FailureIsExact | scripts/check_live_audit.py:141-192 | Each failure is named exactly where its own condition holds and those of the checks before it do not. |
| HealthVerdict.ReportIsExact | scripts/check_live_audit.py:141-192 | An accepted log is reported with an event no other is later than, the pid of that run, and its age, never below zero. |
| HealthVerdict.NamesAreSelected | scripts/check_live_audit.py:118-129 | The names of a critical failure are those of the events that count, each once, in the order of the sorted log. |
| HealthVerdict.NamesMean | scripts/check_live_audit.py:98-114 | A run ends with a completed, failed or interrupted event, and counts as an execution unless its start says it does not execute. |
| DryRuns.DeadSchedulerIsAlwaysReported | scripts/check_live_audit.py:141-192 | If no start of an execution run and no terminal under an execution run's pid or under none is later than `quiet`, every check later than `quiet` plus the maximum age fails, whatever else is in the log. |
| DryRuns.DryRunsDoNotInterfere | scripts/check_live_audit.py:141-192 | Interleaving dry runs under pids of their own, none beyond 60 s in the future, changes neither the verdict nor its reason, age or pid, as long as no terminal without pid has to guess among the open runs. |
| DryRuns.PairProjects | scripts/check_live_audit.py:90-115 | Pairing commutes with removing the dry runs' events, under the same guard. |
| DryRuns.SortProjects | scripts/check_live_audit.py:151 | Sorting commutes with removing events. |
| DryRuns.CriticalProjects | scripts/check_live_audit.py:118-129 | The critical names are the same with and without the dry runs. |
| DryRuns.RunsAreWitnessed | scripts/check_live_audit.py:98-114 | Every run's pid, start and mode come from a start in the log, and its terminal is a logged terminal under its own pid or under none. |
| DryRuns.StartsAreRecorded | scripts/check_live_audit.py:98-108 | No start is lost: each has a run with its pid and mode. |
| OrphanTerminals.GuardIsExact | scripts/check_live_audit.py:110-112 | For every sorted log: no terminal without pid has to guess if and only if no dry runs can be slipped in that change which terminal any of the paired runs gets. |
| OrphanTerminals.DryStartCanHideADeadScheduler | scripts/check_live_audit.py:110-112 | A concrete log the check rejects as stale, and the same log with one dry start added, which it accepts. |
| OrphanTerminals.OrphanIsStealable | scripts/check_live_audit.py:110-112 | Wherever a terminal without pid falls back to another open key, some dry starts take it away from its run. |
| DryRunOutcomes.VerdictIsDecided | scripts/check_live_audit.py:141-192 | For every sorted log, pids reused or not: some dry runs, none beyond 60 s in the future, and some check exist that flip the verdict between accepted and rejected, if and only if the last execution run does not look the same (presence of an end, time of last activity) in all pairings that come of letting each terminal without pid fall back or be taken. |
| DryRunOutcomes.OutcomesAreExact | scripts/check_live_audit.py:90-115 | Those pairings, computed from the log alone, are exactly what the other runs can be paired to once dry runs are interleaved, for every sorted log. |
| DryRunOutcomes.OneVerdictIsSafe | scripts/check_live_audit.py:141-192 | Where they all agree, dry runs change neither the verdict nor its reason, age or pid, for every log, sorted or not, and every check. |
| DryRunOutcomes.DistinctStartsNeedOneLook | scripts/check_live_audit.py:90-115 | Where no pid starts twice they agree if and only if the pairing of the log itself lets no terminal without pid end the last execution run, or only at the instant of one of its own. |
| DryRunOutcomes.ReusedPidNeedsOutcomes | scripts/check_live_audit.py:98-114 | A concrete log with a reused pid in which no terminal without pid ends the execution run, and some dry runs flip the verdict all the same. |
| DryRunVerdicts.VerdictGuardIsExact | scripts/check_live_audit.py:141-192 | For every sorted log in which no pid starts twice: some dry runs, none beyond 60 s in the future, and some check exist that flip the verdict between accepted and rejected, if and only if a terminal without pid falls back to the last execution run and no terminal of its own would have ended it at the same instant. |
| DryRunVerdicts.StolenEndFlips | scripts/check_live_audit.py:110-192 | For every sorted log, pids reused or not: a fallback that ends the last execution run, with no own terminal at that instant, can be turned away by dry starts, and some check then flips. |
| DryRunVerdicts.QuietLogsAreSafe | scripts/check_live_audit.py:141-192 | For every log: dry runs change neither the verdict nor its reason, age or pid, as long as no terminal without pid falls back while the last execution run can still be ended. |
| DryRunVerdicts.OrphanFreeIsQuiet | scripts/check_live_audit.py:110-114 | A log in which no terminal without pid has to guess is such a log. |
| DryRunVerdicts.CriticalsAgree | scripts/check_live_audit.py:118-129 | The critical names never depend on dry runs, whatever falls back. |
| DryRunVerdicts.LogsAreEmbedded | scripts/check_live_audit.py:94-114 | Where no pid starts twice, the open keys without dry runs are those with them, in order, without the dry pids and the keys that fallbacks popped. |
| LongOnly.WalkIsAccounted | scripts/evidence_ac14.py:95-128 | After any number of bars either cash or quantity is zero, the capital is the initial one times the product over the finished round trips, the booked profits add up to the gain, and switches count entries and exits. |
| LongOnly.CloseIsAccounted | scripts/evidence_ac14.py:95-128 | With a positive sell factor: after the forced close cash is the initial capital times the product of (exit open * sell factor) / (entry open * buy factor) over all round trips, the profits sum to cash minus the initial capital, and switches are twice the trades. |
| LongOnly.ClosedFormIsExact | scripts/evidence_ac14.py:95-128 | For every sell factor: cash is that product and the profits sum to the gain if and only if the factor is not negative or there was at most one round trip. |
| LongOnly.CloseGoesBroke | scripts/evidence_ac14.py:95-128 | With a sell factor at or below zero the book after the forced close holds what the first round trip left, or nothing after a second, and one booked profit. |
| LongOnly.AllTripsAreTheBlocks | scripts/evidence_ac14.py:95-128 | The round trips are exactly the maximal blocks of positive signals that could trade: in order, apart from each other, none missing. |
| LongOnly.HeldMeansInvested | scripts/evidence_ac14.py:102-116 | The position is open exactly when the last signal that traded was positive. |
| LongOnly.WalkGoesBroke | scripts/_diagnose_cost_sweep.py:30-46 | With a sell factor at or below zero the first sale leaves at most nothing, and no later bar recovers it. |
| CostSweep.Sim | scripts/_diagnose_cost_sweep.py:30-46 | The loop returns the specified percentage; no forced close. |
| CostSweep.FinalCashIs | scripts/_diagnose_cost_sweep.py:30-46 | The last cash is that of a walk that starts with 100000 and pays half the round-trip cost on each side, without a forced close. |
| CostSweep.CashFallsWithCost | scripts/_diagnose_cost_sweep.py:30-46 | Final cash never rises with the cost, for all signals, all positive opens and all costs above -20000 bps, including those that make the sell factor negative. |
| CostSweep.ProfitIsMoreCash | scripts/_diagnose_cost_sweep.py:46-60 | A cost is profitable if and only if the final cash exceeds 100000. |
| CostSweep.BisectionBrackets | scripts/_diagnose_cost_sweep.py:55-62 | After k steps the bracket is 60 / 2^k wide, its ends are profitable exactly as 0 and 60 bps are, and then every cost at or below the lower end pays and none at or above the upper end does. |
| CostSweep.BreakEven | scripts/_diagnose_cost_sweep.py:56-62 | Forty iterations of the loop give the bracket after forty steps. |
| EquityCurves.MarkedCurve | scripts/evidence_ac14.py:95-128 | The loop both oracles share: the array holds at i the book after bar i's fill marked at open i, the book ends force-closed, and the active count is the number of marks with a position. |
| EquityCurves.OracleEquityCurve | scripts/evidence_ac14.py:71-128 | The loop of `MarkedCurve` with commission, slippage and a quarter of the spread charged on each side, whatever they are. |
| EquityCurves.ExposureCountsSignals | scripts/evidence_ac14.py:95-122 | The active count is the number of positive signals that could trade, with the last one counted twice. |
| EquityCurves.OracleOmitsLastCost | scripts/evidence_ac14.py:115-128 | The last cell times the sell factor of an open position is the liquidated cash, so the reported equity leaves out the closing cost exactly when a position is open and the factor is not 1. |
| EquityCurves.OracleMarksBeforeTheFill | scripts/evidence_ac14.py:102-117 | On an entering bar the cell already holds the quantity bought at the next open, marked at the present one. |
| EquityCurves.CellLooksAhead | scripts/evidence_ac14.py:102-118 | For two markets alike up to open i that differ at the next: cell i is the same in both if and only if bar i neither enters nor leaves the market. |
| EquityCurves.PromotedEquityCurve | scripts/evidence_ac14_promoted.py:151-185 | The same marks with the promoted factors, and the last cell overwritten by the liquidated cash. |
| EquityCurves.OraclesChargeAlike | scripts/evidence_ac14.py:81-83 | The two oracles charge the same for a fill if and only if commission and slippage together come to half the spread. |
| EquityCurves.TimeframeCurve | scripts/_diagnose_timeframes.py:54-78 | Every cell before the last marks the book at the open its bar was filled at; the last is the liquidated cash. |
| EquityCurves.CurveIsSelfFinancing | scripts/_diagnose_timeframes.py:57-72 | From one open to the next the equity moves by the price if held, by 1 / buy factor on entry, by the sell factor on exit, and by nothing else. |
| EquityCurves.CurveIsTheProduct | scripts/_diagnose_timeframes.py:57-72 | Equity at an open is the initial capital times the product of those moves. |
| EquityCurves.CurveIsCausal | scripts/_diagnose_timeframes.py:57-72 | A cell before the last depends on the opens up to it and on earlier signals only. |
| EquityCurves.SimulateLoss | scripts/_diagnose_ac14_loss.py:93-116 | The loop, the forced close without resetting the quantity, and the final expression compute the stated book and equity. |
| EquityCurves.LossCountsOpenPositionTwice | scripts/_diagnose_ac14_loss.py:110-115 | The reported equity is the liquidated cash if and only if the last signal that could trade is not positive; otherwise the position is added again at the last open. |
| EquityCurves.LossDoublesAnIdlePosition | scripts/_diagnose_ac14_loss.py:110-115 | Two bars at a constant price and no cost report twice the initial capital. |
| ProjectTree.BuildStandsForPaths | scripts/generate_project_map.py:55-60 | For prefix-free paths the trie is built without failure and stands for exactly those paths. |
| ProjectTree.InsertIsExact | scripts/generate_project_map.py:56-60 | Putting in any path fails if and only if a file is on the way; otherwise the path is added and what was below it is gone. |
| ProjectTree.InsertAddsPath | scripts/generate_project_map.py:56-60 | Putting in a path that clashes with none adds that path and nothing else. |
| ProjectTree.PathsDetermineTree | scripts/generate_project_map.py:53-60 | Trees without empty directories that stand for the same paths are equal. |
| ProjectTree.PruneKeepsVisible | scripts/generate_project_map.py:64-70 | Pruning keeps exactly the paths none of whose parts is excluded. |
| ProjectTree.HiddenNames | scripts/generate_project_map.py:28-36 | Excluded are exactly the six directory names and three file names. |
| ProjectMap.SortEntries | scripts/generate_project_map.py:73 | Sorting by (is a file, name) yields the entries once each, directories first, names ascending by code point, from any order of the items. |
| ProjectMap.LessIs | scripts/generate_project_map.py:73 | Names compare by their first characters that differ, and a proper prefix comes first. |
| ProjectMap.ListingAscends | scripts/generate_project_map.py:72-79 | Every printed directory lists each entry once with what is below it, directories before files, and names of a kind ascending by the first characters that differ, or as a prefix. |
| ProjectMap.PrintIsBlocks | scripts/generate_project_map.py:72-79 | The lines are those of the entries one after the other: the last of a directory with the elbow and blanks below it, the others with the tee and a bar. |
| ProjectMap.OrderIsUnique | scripts/generate_project_map.py:73 | There is only one such order. |
| ProjectMap.Listing.Walk | scripts/generate_project_map.py:72-79 | The recursive walk appends exactly the printed lines of the tree to the lines so far. |
| ProjectMap.RenderTree | scripts/generate_project_map.py:51-82 | Building, pruning and walking give the specified lines, or fail where a file stands in the way of a directory. |
| ProjectMap.ParsePrint | scripts/generate_project_map.py:72-79 | Reading the drawn lines gives back the names and their nesting, for every forest and prefix. |
| ProjectMap.RebuildTree | scripts/generate_project_map.py:72-79 | A tree without empty directories can be rebuilt from what was printed. |
| ProjectMap.ListingIsCanonical | scripts/generate_project_map.py:51-82 | Any order and repetition of the same prefix-free paths prints the same lines. |
| ProjectMap.ListingIsFaithful | scripts/generate_project_map.py:51-82 | Where pruning empties no directory, two lists of lines are equal if and only if the visible paths are. |
| ProjectMap.EmptiedDirectoryLooksLikeAFile | scripts/generate_project_map.py:64-79 | A concrete pair: an emptied directory and a file of its name print the same line. |
| ProjectMapCheck.ListingTellsApart | scripts/generate_project_map.py:64-79 | For all prefix-free paths: other paths, none of whose directories is emptied, print the same lines without being the same visible paths, if and only if pruning empties a directory and none of the emptied ones is printed where a file of its name would not be. |
| ProjectMapCheck.OutOfPlaceIsTold | scripts/generate_project_map.py:73 | A concrete listing with an emptied directory that no such other paths can print: it sorts before a directory that is not empty. |
| ProjectMapTwins.ListingHasTwin | scripts/generate_project_map.py:64-82 | For all prefix-free paths: some other prefix-free paths print the same lines without being the same visible paths, if and only if in some printed directory every directory name comes before every file name and the last line has none below it. |
| ProjectMapTwins.TwinsAreAmbiguous | scripts/generate_project_map.py:72-79 | Two different trees that print alike have such a directory. |
| ProjectMapTwins.CleanIsPrintable | scripts/generate_project_map.py:55-70 | Every tree without excluded names, empty directories included, is the pruned tree of some prefix-free paths. |
| ProjectMapCheck.RebuildIsFiled | scripts/generate_project_map.py:72-79 | For every tree the printed lines give back the tree with its empty directories read as files. |
| ProjectMapCheck.JoinIsInjective | scripts/generate_project_map.py:103 | Lines without newlines can be read off their joined text. |
| ProjectMapCheck.CheckIsFaithful | scripts/generate_project_map.py:103-107 | Where no name holds a newline and pruning empties no directory, the joined texts `--check` compares are equal if and only if the visible paths are, for every header and footer. |
| WalkForward.ComputeFolds | scripts/fast_wfo.py:100-119 | The loop returns as many folds as floor((n - total) / step) + 1, or none, each at its place. |
| WalkForward.FoldLoopEnds | scripts/fast_wfo.py:108-118 | The loop guard ever fails if and only if there is at least one bar per month. |
| WalkForward.LongTimeframesHaveNoBar | scripts/fast_wfo.py:88-97 | The bars per month are zero exactly for timeframes longer than 30 days. |
| WalkForward.BarsFillTheMonth | scripts/fast_wfo.py:86-97 | The bars per month are the most whole bars that fit into thirty days, 720 for an unknown timeframe, and the script divides by zero exactly for a length of zero. |
| WalkForward.FoldsAreMonths | scripts/fast_wfo.py:100-119 | Fold k starts 3k months in, trains for twelve, validates for three and tests for three months, and it is there if and only if its test ends within the bars. |
| WalkForward.TestWindowsTile | scripts/fast_wfo.py:109-118 | Each test window starts at its validation end and ends where the next begins, all fit, and less than one step is left over. |
| WalkForward.EachBarIsTestedOnce | scripts/fast_wfo.py:109-118 | Every bar between the first test start and the last test end lies in exactly one test window. |
| WalkForward.ProductIsTheGrid | scripts/fast_wfo.py:122-124 | The grid holds exactly the combinations taking one value of every list, and its length is the product of the lengths. |
| WalkForward.ProductAt | scripts/fast_wfo.py:122-124 | The combination with given positions in the lists stands at its mixed-radix rank, and the grid has as many places as the product of the lengths. |
| WalkForward.GridIsOrdered | scripts/fast_wfo.py:122-124 | Ranks order combinations by the first list in which they differ: the last list moves fastest. |
| WalkForward.SelectBest | scripts/fast_wfo.py:228-235 | The running maximum that starts at -999 finds the first best completed run. |
| WalkForward.FirstBestIsUnique | scripts/fast_wfo.py:228-235 | There is at most one first best run. |
| WalkForward.ChooseParameters | scripts/fast_wfo.py:206-244 | Phase 1 freezes, per fold, the specified choice on bars that end with the validation window. |
| WalkForward.ParametersAreFrozen | scripts/fast_wfo.py:213-244 | Two tables that agree before a fold's test start get the same parameters for it. |
| WalkForward.ChoiceIsTheFirstMaximum | scripts/fast_wfo.py:213-241 | On the bars from 200 and the warm-up before training, or the first bar, to the end of validation, the choice beats or ties every combination that completes with a Sharpe ratio above -999, strictly if that one comes earlier in the grid. |
| WalkForward.FirstIsTheFallback | scripts/fast_wfo.py:213-241 | When no combination completes with a Sharpe ratio above -999 on the bars from 200 and the warm-up before training, or the first bar, to the end of validation, the first combination is taken. |
| WalkForward.GridChoiceIsTheFirstMaximum | scripts/fast_wfo.py:122-241 | Over the full product of the parameter lists the choice beats or ties every combination that completes, strictly if that one comes earlier in the grid. |
| HourlyFolds.FoldRangesIsExact | scripts/generate_live_strategy_evidence.py:78-95 | Fewer than six folds are refused first, then folds under ninety days; otherwise the ranges adjoin, take the given days each and end one hour after the latest candle. |
| HourlyFolds.FoldPassesIffFull | scripts/generate_live_strategy_evidence.py:104-129 | A fold of whole hours passes if and only if its rows are the full hourly grid. |
| HourlyFolds.FoldsPassIffGapless | scripts/generate_live_strategy_evidence.py:164-179 | Adjoining folds all pass if and only if the rows in the whole span are start + k hours, each once, and nothing else. |
| HourlyFolds.AcceptedDataIsGapless | scripts/generate_live_strategy_evidence.py:78-95 | The same for the ranges `fold_ranges` returns. |
| HourlyFolds.AcceptedFrameIsGapless | scripts/generate_live_strategy_evidence.py:150-179 | For usable data, in any row order, and the ranges of `fold_ranges`: all folds pass if and only if the sorted rows of the span are the gapless hourly series, that is, if and only if the timestamps inside the span are just its full hours. |
| HourlyFolds.EachRowIsInOneFold | scripts/generate_live_strategy_evidence.py:88-95 | Each instant of the span lies in exactly one half-open fold. |
| HourlyFolds.EvaluateSymbol | scripts/generate_live_strategy_evidence.py:132-179 | Accepts exactly data with all columns, distinct timestamps, rows, finite values, no negative volume, and all folds passing; otherwise it names the missing columns, duplicates, emptiness, non-finite values, negative volume, or the first bad fold. |
| CandleIntake.ValidateLiveHourlyBars | scripts/live_data_pipeline.py:87-137 | The loop and the checks after it return the specified candles or the first violation. |
| CandleIntake.ValidationIsExact | scripts/live_data_pipeline.py:87-137 | The bars are accepted with result cs if and only if cs is their closed part, and is sane, hourly without gaps, and recent. |
| CandleIntake.RejectionIsExact | scripts/live_data_pipeline.py:97-137 | Bars are refused for the first bad one, with its index and what is wrong with it in the order of the checks, or, if none is bad, for closed candles out of order, then for a gap, then for age. |
| PollLoop.BinanceDataFeed.PollLoop | scripts/live_data_pipeline.py:320-351 | The method's new fields and callbacks are those of the specified load and rounds. |
| PollLoop.EveryCallbackIsSound | scripts/live_data_pipeline.py:333-351 | Over every schedule each callback gets exactly `window_bars` consecutive sane hourly candles ending at its bar time, and per symbol the bar times strictly increase. |
| PollLoop.StopsOnlyOnDistrust | scripts/live_data_pipeline.py:333-351 | Over every schedule the loop has stopped if and only if some poll was answered with bars that cannot be trusted, or brought a new window whose callback raised a trust error; until then the last hour and the window of each symbol are those of the candles loaded last or newer since. |
| PollLoop.FetchIsExact | scripts/live_data_pipeline.py:262-270 | A fetch yields a window if and only if the exchange answered with bars whose closed part can be trusted, is not empty and is long enough, and distrust if and only if it answered otherwise with none; no answer is no distrust. |
| PollLoop.StopIsHeeded | scripts/live_data_pipeline.py:333 | A stop event found before a round ends the loop there. |
| PollLoop.NoCallbackAfterDistrust | scripts/live_data_pipeline.py:343-347 | After the first trust violation inside the loop no callback for any symbol follows: none at all if the fetch finds it, none after the one that raises it otherwise. |
| PollLoop.NewBarsAreDelivered | scripts/live_data_pipeline.py:336-342 | As long as no poll of the schedule ended the loop, the next one leads to its callback, with exactly its window and hour, if and only if it yields a window newer than all the feed knows for its symbol. |
| AuditRetention.LinesAreLostOnlyByLateAppends | scripts/audit_retention.py:70-135 | Over every run of appends, archive phases, prunes and crashes, with no line written twice: nothing but pruned archives past the cutoff is lost if and only if no truncation comes after an append behind its copy. |
| AuditRetention.LateAppendIsLost | scripts/audit_retention.py:87-109 | A line appended between the copy and the truncation ends up in no archive and not in the trail, for any two different lines. |
| AuditRetention.UndisturbedRunsLoseNothing | scripts/audit_retention.py:70-135 | The safe direction without assuming the lines distinct. |
| AuditRetention.TornManifestIsPermanent | scripts/audit_retention.py:46-64 | Once the manifest is torn, and no archive is between listing and truncation, no line leaves the trail and no archive is removed any more, over every run. |
| AuditRetention.TearsOnlyWhileSaving | scripts/audit_retention.py:53-64 | A step tears the manifest if and only if it saves it, after a copy or in a prune. |
| AuditRetention.ArchivesAreImmutable | scripts/audit_retention.py:81-95 | No step overwrites an archive; only a prune past the cutoff removes one. |
| AuditRetention.SuffixedArchivesStayForever | scripts/audit_retention.py:34 | An archive with a suffix is never removed and never changed, over every run. |
| AuditRetention.SecondArchiveOfADayIsKept | scripts/audit_retention.py:124-131 | A prune long after removes the first archive of a day and keeps the second. |
| AuditRetention.AuditStore.ArchiveTrail | scripts/audit_retention.py:70-112 | An uninterrupted archive takes the first free name of the day, holds exactly the non-blank lines, is listed with their number, and empties the trail; an empty trail, or one with a non-blank line that is not JSON, is left alone, and a torn manifest stops it after the copy. |
| AuditRetention.NonBlankKeepsOrder | scripts/audit_retention.py:88-96 | The lines archived are the non-blank ones, each once and in order. |
| AuditRetention.AuditStore.PruneArchives | scripts/audit_retention.py:115-135 | An uninterrupted prune removes every matching archive older than the cutoff and counts them. |
| AuditRetention.DeleteExpired | scripts/audit_retention.py:123-135 | The loop leaves exactly the archives and manifest entries that are not expired: those with a suffix and those of the cutoff day or later. |
| Drawdown.OracleMaxDrawdown | scripts/evidence_ac05.py:35-43 | The loop returns the specified online maximum. |
| Drawdown.MaxDrawdownFromReturns | scripts/evidence_workstream_b_verify.py:74-91 | The loop over returns gives the online maximum of the compounded curve starting at 1, in percent. |
| Drawdown.OnlineIsQuadratic | scripts/evidence_ac05.py:35-43 | On a curve that starts above zero and never falls below it the online maximum is the maximum of (e_i - e_j) / e_i over all i <= j with e_i > 0. |
| Drawdown.ReturnDrawdownIsQuadratic | scripts/evidence_workstream_b_verify.py:74-91 | So it is on the compounded curve, for all returns from -1 on. |
| Drawdown.OnlineIsPeakDrop | scripts/evidence_ac05.py:35-43 | On every curve the loop computes the largest drop from a highest point so far above zero, and zero where nothing is above zero. |
| Drawdown.ReturnDrawdownIsPeakDrop | scripts/evidence_workstream_b_verify.py:74-91 | So it does on the compounded curve for all returns, those below -1 included. |
| Drawdown.QuadraticFailsBelowZero | scripts/evidence_workstream_b_verify.py:74-91 | Returns of -1/2 and -2: the loop gives 150 percent, the largest drop between two points is 200. |
| Drawdown.OracleMaxDrawdownDuration | scripts/evidence_ac05.py:45-57 | The loop returns the longest run of points below their running peak. |
| Drawdown.DurationIsLongestStretch | scripts/evidence_ac05.py:45-57 | That is the length of the longest contiguous stretch of points each below some earlier point. |
| Tenure.ChampionTenure | scripts/audit_report.py:70-86 | The counter has exactly the champions of the sequence, each with its longest block. |
| Tenure.SequenceKeepsChoices | scripts/audit_report.py:70-82 | The sequence of champions is that of the entries that chose one, in order. |
| Tenure.LongestIsLongest | scripts/audit_report.py:70-86 | No contiguous block of a champion is longer than that, and some block is as long. |
| Tenure.BlocksPartition | scripts/audit_report.py:75-82 | The maximal blocks make up the sequence, and neighbours differ. |
| Tenure.SwitchesCountBlocks | scripts/audit_report.py:64-67 | For a non-empty sequence the switches plus one are the number of maximal blocks. |

## Left out

- Floating point, NaN and rounding: all arithmetic is over exact reals.
- Sharpe ratios, bootstrap and other statistics, profit factors, and every report that is printed.
- The bodies of the engine, exchange, risk controller and router, and the order lifecycle: they are arbitrary functions in the model.
- Parsing of JSON, timestamps, command lines and environment; time zones (all instants are already comparable).
- The time-zone check at the top of `validate_audit_health`, and reading `/proc` in `_process_alive`.
- `run` before its loop: the execution-contract check and the data-quality assessment; after it: flushing and the report.
- Fields of funnel rows, signal entries and contexts that only copy text for the report (authority reasons, regime info, confidence), `holding_bars` and its rounding.
- An order side other than buy or sell, and a runtime object without symbol, timeframe or name.
- A zero entry price in `_stamp_new_trades`, which divides by it, and its limit of a million trades.
- The exchange, its `fetch_ohlcv`, the sleeping between rounds and task cancellation; the dry-run branch of `fetch_recent_closed` and `has_new_closed_bar`.
- Hashing and compression of archives, file permissions, and `audit_ship_offhost.py`.
- Two archivers at once, a prune during an archive, and a crash in the middle of writing one archive line; a copy may stop after any line.
- `git ls-files`, splitting paths at slashes, and writing the map file.
- The nested dictionary of the project map is modelled as a value; that building and pruning share no dictionary is not captured.
- Worker processes and garbage collection of `fast_wfo.py`; the test phase of `run_fast_wfo` and its metrics, whose runs start before the test window (line 253).
- The backtest engine that `evaluate_symbol` runs on an accepted fold.
- `alert_pager.py`, `evidence_ac14_real.py`, `evidence_ac14_windows.py` and `_test_enhanced_ma_windows.py`, which repeat weaker or equal loops, and the `evidence_ac06` to `evidence_ac13` scripts, which call the library on fixed examples.
- CostSweep.CashFallsWithCost: costs at or below -20000 bps, where the buy factor is not positive, are not covered.
- Drawdown.ReturnDrawdownIsQuadratic: returns below -1, where the compounded curve can fall below zero, are not covered; `ReturnDrawdownIsPeakDrop` covers them, and `QuadraticFailsBelowZero` shows why they are apart.
- LongOnly.CloseIsAccounted: a sell factor at or below zero is not covered; `ClosedFormIsExact` and `CloseGoesBroke` say what happens there.
- DryRunVerdicts.VerdictGuardIsExact: logs in which a pid starts twice are not covered; `DryRunOutcomes.VerdictIsDecided` covers them with a larger check, and `ReusedPidNeedsOutcomes` shows that the simpler condition fails there.
- EquityCurves.CellLooksAhead: a sell factor or an initial capital at or below zero is not covered.
