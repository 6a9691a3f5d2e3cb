# Verified model of the FX research ledger

The repository keeps an append-only research ledger for foreign-exchange recommendations: it issues directional
recommendations, sizes them in CAD, groups them into cohorts under shared risk caps, follows the admitted ones through
hourly bid/ask candles, scores the forecasts behind them, and acquires the candles all of this rests on. This project
models those parts in Dafny and proves what they promise. `dafny verify dfyconfig.toml` checks everything.

Conventions of the model

- A database table is a sequence or map in insertion order; a row's position stands for its primary key, so
  "-occurred_at, -id" is "latest instant, then latest insertion". A function under `@transaction.atomic` is one step; a
  refused step leaves everything as it was.
- Code that changes rows or accumulates in loops is a class with fields or a method with a loop, proved equal to a
  specification function; the properties are lemmas about that function.
- Money is in CAD cents, prices in millionths, scores and probabilities in millionths, R in ten-thousandths. Every
  `quantize` is an explicit rounding (`Rounding`), half to even or half up as in the code.
- Instants are integers on the New York wall clock. Daylight-saving changes fall on Sunday 02:00, inside the weekly
  closure, so every open session has one offset. A call reads the clock once.
- Only contract version 4, the governed one, is modelled.

## What is proved, part by part

| Part | Files | Main results |
|---|---|---|
| Lifecycle | Rows, Lifecycle | every history keeps one valid chain; terminal states absorb; no state repeats; the past is frozen; projections move along legal transitions |
| Paper portfolio | Accounts, Risk, Portfolio, PortfolioSafety, PortfolioRuns, PortfolioTheorems, PortfolioSnapshots, PaperPortfolio | in every run of issue, size, assess, select, close and fact commands the caps hold, lifecycle and admission agree, each cohort is selected once, frozen snapshots are exact |
| Paper trades | Fills, PaperTrading, PaperEvidence, PaperScans, PaperTheorems, PaperHistory, PaperResume, PaperResults, PaperCoverage, PaperWitnesses, PaperWeekend, PaperTrade | resuming over many runs equals one run exactly when no entry was stored, or the final view is covered and nothing slipped in front of the stored entry or exit; writers satisfy validators; results are honest about the price path |
| Target resolutions | Predictions | the first call behind maturity fixes one outcome for every prediction about a target |
| Market hours | MarketCalendar, Coverage | exactly up to which bound the coverage test can be trusted, and exactly which complete data it accepts |
| Candle paging | CandleGrid, Paging | the paged walk returns exactly the candles of the range |
| Schedules | Schedules | the collision test fires exactly when two recurrences ever meet |
| Conversion and sizing | Conversion, Sizing, Rounding | fewest-edge conversion, greatest affordable size |
| Costs and elapsed time | Costs, WeekdayClock | loops equal their measures; scenarios stay ordered after rounding |
| Scoring | Scoring, Grouping, Calibration, CalibrationReplication, Populations, PopulationStatus, Replication | proper scores, bounded means, intervals and calibration error; recommending some targets more often than others changes no score, no calibration error and no status |
| Acquisition | Acquisition, Readiness | dense attempt ledgers, sealing, readiness, mismatch evidence |
| Assessment gates | Texts, Gates, GatesTheorems, GatesLegacy, GateBoard | exactly when a candidate is offered; agreement with the frozen empty projection |

## Where the code falls short of a general claim

For each of these a lemma states the exact condition, and where the failing input is a whole body of evidence another
lemma builds one.

- The weekend test of the coverage check compares weekdays and hours, not dates: a candle list that jumps over a whole
  trading week is accepted once the window reaches 217 hours behind its first Friday close (`Coverage.TrustworthyIff`).
  Five-session windows are always shorter.
- The coverage check rejects complete data exactly when a candle comes in front of the first open hour behind
  generation, generation leaves no open hour to judge, an hour appears twice, or a weekend is filled in part
  (`PaperCoverage.CompleteDataCoveredIff`). With one candle for each open hour and none for closed ones what remains is
  a recommendation issued on the hour, whose own hour has a candle, and one issued within the last hour of its horizon
  (`PaperCoverage.OpenDataCoveredIff`). Each case has its evidence: `PaperCoverage.OnTheHourRejected`,
  `PaperCoverage.LastHourRejected`, `PaperCoverage.StrayCandleRejected` and `PaperCoverage.TwiceStoredRejected`.
- Resuming behind stored rows and one run over everything end differently exactly when an entry was stored and the
  final view lost its coverage, or holds a candle in front of the stored entry that fills it, or one between stored
  entry and booked exit that touches a level (`PaperResume.ResumeIsBatchIff`).
  - Coverage lost: a single run ends as expired unobserved, while an exit booked before the loss stands and the trade
    without one ends as missing data (`PaperWitnesses.LostCoverageOutcome`, `PaperWitnesses.ResumeIsNotBatch`).
  - A candle slipped in: it can only be one of a closed hour that came in late (`PaperResume.SlippedIsLate`), and it
    makes a later covered view no extension of the earlier one (`PaperEvidence.UsableViewsExtendIff`). A weekend stored
    behind the following Monday moves the entry (`PaperWeekend.EntrySlipsIn`), and turns a booked target into a stop for
    the single run (`PaperWeekend.ExitSlipsIn`). Where closed hours arrive in order, or not at all, only lost coverage
    makes a difference (`PaperResume.InOrderIsBatchIff`).
- A stop entry can gap through its own target and book the target as a loss (`Fills.TargetCanLose`); limit entries, the
  only ones the engine generates, cannot (`Fills.LimitEntryIff`).
- The branch for a horizon missing fourteen days after generation always writes a fact its validator refuses
  (`PaperTheorems.RunRefusedIff`, `PaperWitnesses.LongHorizonIsRefused`); five sessions never reach it.
- The frozen empty assessment and the engine differ exactly when an unknown event carries a null detail
  (`GatesLegacy.TwinsAgreeIff`, `GatesLegacy.TwinsDisagree`).

## Model

| member | source | states |
|---|---|---|
| Rows.LatestIsTail | forecasts/lifecycle.py:69-69 | in a table with non-decreasing instants, the first row under "-occurred_at, -id" is the tail |
| Rows.VisibleIsPrefix | forecasts/lifecycle.py:150-154 | an as-of cutoff splits an ordered table into a visible prefix and a hidden suffix |
| Lifecycle.InitializeWritesRoot | forecasts/lifecycle.py:104-121 | initialization writes the one root event, fixed by the action, at the generation instant |
| Lifecycle.TransitionKeepsChain | forecasts/lifecycle.py:57-101 | an accepted transition only appends, and the chain keeps its root, legal successors and ordered instants |
| Lifecycle.StateChain.Extend | forecasts/lifecycle.py:57-101 | the in-place transition equals its specification, branch by branch, and grows the chain by at most one row |
| Lifecycle.TerminalAbsorbs | forecasts/lifecycle.py:17-51 | no request of any kind adds a row behind a terminal state |
| Lifecycle.ReplayValid | forecasts/lifecycle.py:57-121 | every history of calls leaves a valid chain |
| Lifecycle.NoStateRepeats | forecasts/models.py:1605-1628 | in every history no state is entered twice and a chain has at most five events |
| Lifecycle.FrozenPast | forecasts/lifecycle.py:124-156 | once a later event exists, no further history changes the projection at an earlier instant |
| Lifecycle.ProjectionReaches | forecasts/lifecycle.py:124-156 | the states projected at two instants are related by legal transitions |
| Risk.SubsetFits | forecasts/portfolio.py:60-64 | any subset of a fitting set of recommendations fits every cap |
| Risk.DirectionalTwiceTotal | forecasts/portfolio.py:67-77 | the directional sums add up to exactly twice the total |
| PortfolioTheorems.RiskStaysWithinCaps | forecasts/portfolio.py:60-110 | in every run active risk stays within the aggregate cap and every currency-direction cap |
| PortfolioTheorems.LifecycleAgreesWithAdmission | forecasts/lifecycle.py:211-227 | in every run whoever is admitted or entered has ADMITTED as latest admission, a positive size within the setup cap, and counts as active |
| PortfolioTheorems.CohortsDecideOnce | forecasts/portfolio.py:303-445 | a cohort is selected at most once, within its members; a selected cohort is closed; nobody in a closed cohort still waits |
| PortfolioTheorems.NoRevocation | forecasts/portfolio.py:371-445 | no admission is ever revoked and nobody belongs to two cohorts |
| PortfolioTheorems.AllOrNothing | forecasts/portfolio.py:201-264 | a batch is admitted whole when it fits beside the active set, and otherwise leaves the active set alone and waits for the owner |
| PortfolioSnapshots.SnapshotIsExact | forecasts/portfolio.py:201-240 | in every run each cohort's frozen snapshot is exactly what the active recommendations used in the ledger its batch found: their ids, the total and, absent legs read as zero, every leg |
| PortfolioSnapshots.StepOpens | forecasts/portfolio.py:201-240 | no command rewrites a cohort's row, and only a batch opens one, with an exact snapshot |
| PortfolioRuns.AssessInv | forecasts/portfolio.py:141-280 | assessing any batch keeps the whole-run invariant |
| PortfolioRuns.SelectCommandInv | forecasts/portfolio.py:329-368 | any owner selection, accepted or refused, keeps the invariant |
| PortfolioRuns.CloseKeeps | forecasts/lifecycle.py:230-251 | closing a cohort moves exactly its waiting members to closed-unselected and changes no active risk |
| PortfolioRuns.RecordInv | forecasts/paper.py:464-492 | entries, results and coverage facts keep the invariant |
| PortfolioRuns.RunInv | forecasts/portfolio.py:141-445 | every run from the empty ledger keeps the invariant |
| PaperPortfolio.PaperPortfolio.CapacityUsage | forecasts/portfolio.py:67-77 | the loop's total and directional map are the sums over the given recommendations; it fails exactly when one has no size |
| PaperPortfolio.PaperPortfolio.FitsCaps | forecasts/portfolio.py:60-64 | the test holds exactly when the aggregate and every leg stay within their caps |
| PaperPortfolio.PaperPortfolio.FitsSnapshot | forecasts/portfolio.py:80-97 | the test holds exactly when the picks fit on top of the frozen base |
| PaperPortfolio.PaperPortfolio.ActiveIds | forecasts/portfolio.py:100-110 | the loop returns exactly the active admitted recommendations, each once |
| PaperPortfolio.PaperPortfolio.CloseCohort | forecasts/lifecycle.py:230-251 | the in-place closing loop equals its specification |
| PaperPortfolio.PaperPortfolio.RecordSelection | forecasts/portfolio.py:371-445 | the in-place selection, closure and admissions equal their specification |
| PaperPortfolio.PaperPortfolio.OpenCohort | forecasts/portfolio.py:201-240 | the cohort, its members, deadline and snapshot are exactly those of the specification |
| PaperPortfolio.PaperPortfolio.SupersedeOlder | forecasts/portfolio.py:242-256 | the loop over older open cohorts closes exactly those that give way |
| PaperPortfolio.PaperPortfolio.AssessBatch | forecasts/portfolio.py:141-280 | the batch assessment equals its specification, and refuses without a trace |
| PaperPortfolio.PaperPortfolio.SelectCohort | forecasts/portfolio.py:329-368 | the owner's selection equals its specification in every branch |
| MarketCalendar.NextIsLeastOpen | forecasts/paper.py:426-435 | the next market hour is the least open hour behind the given one |
| MarketCalendar.SuccessorIsNext | market/quality.py:111-123 | on open hours the registered successor is the coverage test's next market hour |
| MarketCalendar.ComputeTargetEndpoint | forecasts/targets.py:41-46 | the horizon loop walks the registered sessions and refuses horizons outside 1 to 100 |
| MarketCalendar.FiveSessionsAreAWeek | forecasts/targets.py:41-46 | five sessions span exactly one calendar week from any session |
| Coverage.ShortWindowIsComplete | forecasts/paper.py:400-423 | accepted coverage of a short window contains every open hour of the window |
| Coverage.CoverageAntitone | forecasts/paper.py:400-423 | coverage is antitone in its end |
| Coverage.CoveredIsRegistered | forecasts/paper.py:400-446 | a covered list of open hours is hour for hour the registered calendar |
| Coverage.CompleteIsCoveredIff | forecasts/paper.py:400-446 | of the lists that hold every open hour of a window the test accepts exactly those with an open hour to cover, nothing in front of it, no hour twice and no weekend filled in part |
| Coverage.TrustworthyIff | forecasts/paper.py:400-446 | the test can be trusted exactly for windows ending within 216 hours behind the first Friday close |
| Coverage.FiveSessionWindowIsTrustworthy | forecasts/paper.py:82-85 | every governed five-session window is inside that bound |
| Fills.FillNeverBetter | forecasts/paper.py:279-301 | a candle fills exactly when a traded price satisfies the condition, never better than the level, and risk is at least the planned one |
| Fills.StoppedLosesOneR | forecasts/paper.py:316-348 | a stopped position loses at least one R after gaps and rounding |
| Fills.LimitEntryIff | forecasts/paper.py:279-301 | limit entries are exactly the setups that always fill at their level and exactly those whose target always pays |
| Fills.TargetCanLose | forecasts/paper.py:166-188 | for every stop entry some candle opens beyond the target and books it at a loss |
| Fills.GeneratedSetup | forecasts/recommendations.py:551-579 | with a positive band each generated setup is ordered, fills at its level and pays the planned distance |
| Fills.GeneratedSetupIff | forecasts/recommendations.py:551-579 | generated levels are ordered exactly when the band is positive or both technical levels lie strictly beyond the reference |
| PaperTheorems.ResolutionValidIff | forecasts/targets.py:126-175 | the validator accepts a resolution exactly when it is the one the writer produces at that instant |
| Predictions.OneOutcomePerTarget | forecasts/targets.py:324-390 | over every sequence of calls, by predictions and paper trades in any order, the first one behind maturity fixes the resolution, exactly the predictions that asked behind maturity have a row, and each row is derived from that one resolution |
| Predictions.RowsAgree | forecasts/targets.py:354-390 | any two rows of a target tell one outcome and move, are scored together, opposite recommendations are never both right and both wrong exactly in the neutral band |
| Predictions.MissingStays | forecasts/targets.py:324-351 | the outcome is missing exactly when no endpoint was eligible at the first call behind maturity, whatever arrives later |
| Predictions.RowsStay | forecasts/services.py:262-270 | no later call changes or drops a row |
| Predictions.DerivedAccepted | forecasts/models.py:262-279 | the tables accept whatever is derived from a valid resolution |
| Predictions.TargetRows.DeriveResolution | forecasts/targets.py:354-390 | the derivation in place equals its specification and rolls back what is refused |
| Predictions.TargetRows.ResolvePrediction | forecasts/recommendations.py:670-679 | an existing row is returned as it is, and otherwise one is derived |
| PaperTheorems.RunRefusedIff | forecasts/paper.py:42-276 | a run's row is refused exactly in the fourteen-day branch; a run behind maturity always settles |
| PaperTheorems.GovernedRunNeverRefused | forecasts/lifecycle.py:316-402 | every row a five-session run writes is accepted by its validator |
| PaperTheorems.RunMovesLegally | forecasts/paper.py:464-492 | a run moves the lifecycle along legal transitions, and settles exactly in terminal states |
| PaperScans.FirstFillIff | forecasts/paper.py:131-137 | the entry search stops at the first filling candle and only there |
| PaperScans.ExitScanClosesIff | forecasts/paper.py:191-212 | the exit scan closes at the first touched candle, the stop taking precedence |
| PaperScans.FullScanExtends | forecasts/paper.py:124-212 | candles that join behind a list never change a closed trade, and resuming behind a stored entry equals scanning everything |
| PaperScans.ClosedMeans | forecasts/paper.py:124-212 | a closed scan booked the first candle that allows it: the stop on any candle and before the target, the target on the entry candle only behind a fill at the open; nothing from entry to exit touched the stop |
| PaperEvidence.SelectIs | forecasts/paper.py:82-101 | the query keeps exactly the visible rows, in order |
| PaperEvidence.ImmatureIsUncovered | forecasts/paper.py:224-243 | no view covers the whole horizon before the horizon is over |
| PaperEvidence.UsableViewsExtendIff | forecasts/paper.py:82-122 | of two views that pass the coverage check the earlier is a prefix of the later, exactly unless a candle of a closed hour came in late in front of its end; never when closed hours arrive in order |
| PaperWeekend.WeekendSlipsIn | forecasts/paper.py:82-122 | a weekend whose candles all arrive late slips in between two covered views |
| PaperHistory.HistoryGrounded | forecasts/paper.py:42-276 | after any history the entry is the first fill of the covered view it was stored from, a booked exit the first candle behind it that allows one in the covered view it was booked from, and the rows keep what their validators check |
| PaperResume.ResumeIsBatchIff | forecasts/paper.py:82-212 | any early runs followed by a mature one store what the mature run alone would have, exactly when no entry was stored, or the final view is covered and holds no fill in front of the stored entry and no touch between it and the booked exit |
| PaperResume.SlippedIsLate | forecasts/paper.py:82-122 | such a fill or touch is a candle of a closed hour that came in late, so there is none when closed hours arrive in order |
| PaperWeekend.EntrySlipsIn | forecasts/paper.py:124-158 | late weekend candles for which resumed and single runs, both covered, enter at different hours |
| PaperWeekend.ExitSlipsIn | forecasts/paper.py:124-212 | late weekend candles for which the resumed trade keeps its target and the single run books the stop |
| PaperWitnesses.LostCoverageOutcome | forecasts/paper.py:102-123 | where coverage is lost behind a stored entry, an exit already booked stands, the trade without one ends as missing data, and a single run ends as expired unobserved |
| PaperWitnesses.ResumeIsNotBatch | forecasts/paper.py:102-123 | two candles and one early run for which resuming and a single run disagree |
| PaperWitnesses.LongHorizonIsRefused | forecasts/paper.py:224-243 | a twenty-session horizon without data whose run is refused |
| PaperResume.ScheduleIsBatchIff | forecasts/paper.py:24-39 | the same for a whole schedule with runs behind the first mature one |
| PaperResume.InOrderIsBatchIff | forecasts/paper.py:24-39 | where closed hours arrive in order, only an entry stored before coverage was lost makes a schedule differ from its first mature run |
| PaperResults.TargetMeansStopUntouched | forecasts/paper.py:124-212 | after any history, a booked target means every open hour from entry to exit has its candle and none touched the stop |
| PaperScans.HoldingMeans | forecasts/paper.py:124-212 | a position is still held only when no candle of the view closes it |
| PaperResults.ExpiredMeansHeld | forecasts/paper.py:224-276 | after any history, expiry means every open hour from entry to maturity has a candle that leaves the trade open, and it closes at the horizon candle's bid or ask |
| PaperResults.NotActivatedMeansNoFill | forecasts/paper.py:244-263 | after any history, non-activation means every open hour of the horizon has a candle and none fills the entry |
| PaperResults.ResultsPayAsPlanned | forecasts/paper.py:322-348 | after any history, a booked stop costs at least one R and a limit entry's target pays exactly the planned distance |
| PaperCoverage.CompleteDataCoveredIff | forecasts/paper.py:400-446 | behind maturity complete data is accepted exactly when an open hour is left to judge, no candle comes in front of the first, no hour appears twice and no weekend is filled in part |
| PaperCoverage.OpenDataCoveredIff | forecasts/paper.py:400-446 | with one candle for each open hour and none for closed ones it is accepted exactly when there is no candle of the hour of generation and an open hour is left |
| PaperCoverage.IssuedOnTheHourIsNeverCovered | forecasts/paper.py:400-435 | a recommendation issued on the hour, once that hour's candle is seen, is never covered at any later time |
| PaperCoverage.OnTheHourRejected | forecasts/paper.py:400-435 | complete data issued on the hour that is rejected |
| PaperCoverage.LastHourRejected | forecasts/paper.py:400-435 | a recommendation issued in its last hour is rejected |
| PaperCoverage.StrayCandleRejected | forecasts/paper.py:400-423 | complete data with one candle in the middle of a weekend is rejected |
| PaperCoverage.TwiceStoredRejected | forecasts/paper.py:400-423 | complete data with one hour stored twice is rejected |
| PaperCoverage.OrdinaryDataAccepted | forecasts/paper.py:400-446 | the same data without any of that is accepted |
| PaperTrades.PaperTrade.ResolveShared | forecasts/targets.py:324-351 | the stored resolution is kept or written once, and reported refused exactly when its validator refuses |
| PaperTrades.PaperTrade.WalkCandles | forecasts/paper.py:124-212 | the entry and exit loops equal the scan, for fresh and for resumed trades |
| PaperTrades.PaperTrade.SettleWithoutExit | forecasts/paper.py:214-276 | missing horizon, coverage facts, non-activation and expiry are exactly those of the specification |
| PaperTrades.PaperTrade.Resolve | forecasts/paper.py:42-276 | one transaction stores what the specification says, or restores everything |
| CandleGrid.FloorIsLast | market/live_acquisition.py:36-53 | the canonical start is the last grid point at or before an instant |
| CandleGrid.CanonicalLiveStart | market/live_acquisition.py:36-53 | the hour-by-hour loop finds it, always within its 170 attempts |
| CandleGrid.GridSpacing | market/quality.py:50-78 | distinct grid points are at least one step apart |
| Paging.PageGains | market/oanda.py:147-170 | a page gains exactly the wanted candles between the old cursor and the new one |
| Paging.FetchCandles | market/oanda.py:103-184 | the loop terminates and returns exactly the complete candles of the range, asking for pages of at most 4999 cells that advance without gaps |
| Paging.PageFits | market/oanda.py:121-126 | such a page is answered by at most 4999 candles |
| Paging.ExpectedIs | market/oanda.py:155-163 | the returned list holds each wanted candle once, in order, and no other |
| Schedules.CollideMicroIff | market/live_schedules.py:152-158 | the microsecond test fires exactly when the recurrences ever meet, and then they meet behind every moment |
| Schedules.CollideIff | forecasts/schedules.py:26-31 | the seconds form agrees with the microsecond form and is exact |
| Schedules.MicrosecondsLossless | market/live_schedules.py:86-96 | the deadline conversion keeps order and identity |
| Schedules.SeededJobsNeverMeet | forecasts/schedules.py:85-107 | the four seeded jobs never meet, whatever hour each was seeded in and however often each has run |
| Schedules.CollisionErrors | forecasts/schedules.py:65-80 | the pairwise loop reports exactly the pairs that will meet some time |
| Conversion.BuildGraph | forecasts/sizing.py:41-72 | the adjacency lists are the edges of the observed instruments, both ways, in order |
| Conversion.QuoteToCad | forecasts/sizing.py:37-94 | the search terminates, fails exactly when CAD is unreachable, and returns a simple chain with the fewest edges and the product of their rates, rounded to eight places |
| Conversion.ThereAndBack | forecasts/sizing.py:60-72 | every chain can be walked back and there and back multiplies to one |
| Sizing.SizeIsGreatest | forecasts/sizing.py:22-34 | sizing succeeds exactly when one unit is affordable, takes the greatest size, risks more than half the cap, and its last min changes nothing |
| Sizing.SizedRowAccepted | forecasts/models.py:515-556 | every size is accepted by its row's validator and constraints |
| Sizing.SizeAntitone | forecasts/sizing.py:22-34 | a wider stop or dearer currency never buys more units |
| Rounding.HalfEvenIff | forecasts/paper.py:347-348 | the rounding is the nearest integer, the even one of two |
| Rounding.HalfEvenMonotone | forecasts/costs.py:109-111 | rounding keeps the order of fractions with any denominators |
| Rounding.NearestIff | forecasts/sizing.py:90-91 | rounding an exact real gives the nearest integer, the even one of two |
| Rounding.NearestOfFraction | forecasts/experiments.py:331-331 | on fractions it is the rounding of fractions |
| Rounding.HalfUpIff | forecasts/sizing.py:33-33 | the rounding is the nearest integer, the farther from zero of two |
| Costs.FinancingDaysBetween | forecasts/costs.py:26-37 | the walk over dates sums the charges of its range |
| Costs.FinancingIsDifference | forecasts/costs.py:26-37 | it counts exactly the weighted rollovers strictly inside, as a difference of running totals |
| Costs.FinancingMonotone | forecasts/costs.py:26-37 | a longer holding never costs fewer days |
| Costs.FinancingSplits | forecasts/costs.py:26-37 | splitting loses exactly a rollover at the split point |
| Costs.WholeWeeks | forecasts/costs.py:26-37 | whole weeks cost seven days each, less the end points' rollover |
| Costs.RangeBrackets | forecasts/costs.py:40-54 | the range brackets every holding the hourly candles allow |
| Costs.ScenariosOrdered | forecasts/models.py:793-806 | optimistic, base and conservative results stay ordered in pips and R after both roundings |
| Costs.Assess | forecasts/costs.py:86-112 | the scenario loop computes the three results and its row meets the constraints |
| WeekdayClock.WeekdayElapsed | forecasts/recommendations.py:431-442 | the midnight loop measures weekday time exactly |
| WeekdayClock.MeasureSplits | forecasts/recommendations.py:431-442 | the measure is additive |
| WeekdayClock.MeasureBounds | forecasts/recommendations.py:431-442 | it never exceeds the elapsed time |
| WeekdayClock.WholeWeeks | forecasts/recommendations.py:431-442 | any whole number of weeks holds five days each |
| Scoring.BrierBounds | forecasts/experiments.py:276-282 | a score lies between zero and two thirds up to rounding, and is exactly zero only for certainty |
| Scoring.BrierIsProper | forecasts/experiments.py:276-282 | the unrounded score is strictly proper, its excess the squared distance |
| Scoring.MeanBounds | forecasts/experiments.py:285-288 | a rounded mean stays in the range of its values |
| Scoring.ReplicationInvariant | forecasts/experiments.py:285-288 | replicating the values changes no mean |
| Scoring.IntervalContainsMean | forecasts/experiments.py:354-365 | the cluster interval contains the mean and stays in its support |
| Grouping.GroupBy | forecasts/experiments.py:292-295 | the dictionary of lists holds every bucket in order of first appearance |
| Grouping.GroupsSum | forecasts/experiments.py:320-331 | summing group by group is summing everything |
| Calibration.WeightsSumToOne | forecasts/experiments.py:296-307 | under both weightings a cluster's samples weigh exactly one |
| Calibration.CalibrationBounds | forecasts/experiments.py:291-331 | the calibration error lies between 0 and 1 |
| Calibration.CalibrationError | forecasts/experiments.py:291-331 | the loops compute it from the binned entries, rounded to six places and still within 0 and 1, and give none exactly for no samples |
| CalibrationReplication.ReplicationKeepsCalibration | forecasts/experiments.py:296-307 | the target-balanced error is the same however often each target was recommended, in any order of the samples |
| Populations.TallyTarget | forecasts/populations.py:47-127 | one round of the loop, with its control pairing, adds what is specified |
| Populations.TallyTargets | forecasts/populations.py:29-127 | the loops count the targets and controls and collect the scores, the model and control means by cluster, and the resolved samples as specified |
| Populations.CollectedIs | forecasts/populations.py:42-46 | the dictionaries of lists hold each cluster's values in order |
| Populations.MeanOfMeans | forecasts/populations.py:128-130 | the mean of the cluster means of such a dictionary |
| Populations.CoverageIsProportion | forecasts/populations.py:29-131 | scored, missing and cancelled targets are disjoint parts of the mature ones, paired targets are scored ones, and the control counters partition the samples |
| Populations.MeanScoreInInterval | forecasts/populations.py:128-145 | the three-level mean of scores lies in its range and in its reported interval, and so does the mean improvement on the controls |
| Replication.CopiesScoreAlike | forecasts/populations.py:68-125 | replicating a target's samples changes neither its score nor its paired model and control means, and replicates its resolved samples |
| Replication.ReplicationKeepsScores | forecasts/populations.py:47-127 | when each target's samples are replicated any number of times, in any order of the targets, the population has the same targets and the same scores |
| Replication.ReplicationKeepsMeans | forecasts/populations.py:128-139 | replication keeps the scored weeks and every mean over them, of scores, models, controls and their differences, whatever the order the targets are met in |
| Replication.ReplicationKeepsFigures | forecasts/populations.py:128-226 | every figure of the decision survives replication but the raw count of samples and the sizes of the control counters, whose being zero survives |
| Replication.ReplicationKeepsStatus | forecasts/populations.py:147-226 | the status survives replication, champion's or challenger's: the raw count never decides, since every scored target has a sample |
| PopulationStatus.AssessStatus | forecasts/populations.py:29-226 | the path from the samples to the status, with its calibration, intervals and champion pairing, equals its specification |
| PopulationStatus.PairWithChampion | forecasts/populations.py:197-202 | the pairing loop collects the differences of the targets the champion scored |
| PopulationStatus.DecideStatus | forecasts/populations.py:147-226 | promotion needs everything descriptive readiness needs and a paired interval below zero over enough targets and weeks |
| Acquisition.LedgerShape | market/historical_acquisition.py:338-371 | over every run attempts are numbered 1, 2, 3, ... and all but the last failed or were quarantined |
| Acquisition.RegisteredIsSealed | market/historical_acquisition.py:344-345 | behind registration no run of commands changes anything |
| Acquisition.RegisterIff | market/historical_acquisition.py:1289-1300 | registration accepts exactly ledgers that have chunks, every one of which ends in one accepted success |
| Acquisition.SuccessIsFinal | market/historical_acquisition.py:346-349 | a chunk that succeeded is never attempted again |
| Acquisition.HistoricalLedger.BeginHistoricalAttempt | market/historical_acquisition.py:338-371 | the in-place begin equals its specification and reports the attempt and whether it is new |
| Acquisition.HistoricalLedger.FinishHistoricalAttempt | market/models.py:348-359 | only a running attempt becomes terminal |
| Acquisition.HistoricalLedger.ResolveStaleHistoricalAttempt | market/historical_acquisition.py:1041-1064 | only a running attempt older than a positive threshold of an unregistered dataset is failed, with a reason given |
| Acquisition.HistoricalLedger.RegisterHistoricalDataset | market/historical_acquisition.py:1270-1318 | the loop over the chunks registers exactly as specified, and a registered dataset stays registered |
| Acquisition.EvidenceIff | market/historical_acquisition.py:500-521 | for an increasing inventory a response equals it exactly when nothing is missing, extra, repeated or misordered |
| Readiness.EvaluateGate8gReadiness | market/provider_observed_gate8g.py:208-283 | the loop's verdict, with its first blocking reason, is the specified one |
| Readiness.CompleteIff | market/provider_observed_gate8g.py:274-283 | complete means all 132 keys have exactly one accepted canonical success |
| Readiness.ReadyIff | market/provider_observed_gate8g.py:208-283 | keys are offered exactly while every other key is untried or cleanly done |
| Readiness.ObedientRunsStop | market/provider_observed_gate8g.py:208-283 | a run that takes offered keys tries each once and stops at its first failure |
| Readiness.PendingShrinks | market/provider_observed_gate8g.py:226-241 | each try takes exactly its key off the pending list |
| Gates.ClosedIff | assessments/engine.py:38-48 | a gate is closed exactly when some closing named it |
| Gates.GatesNeverReopen | assessments/engine.py:42-48 | gates never reopen |
| Gates.PrimaryIs | assessments/engine.py:51-52 | the primary reason is the first closed one in order of precedence |
| GatesTheorems.CandidateIff | assessments/engine.py:142-369 | no gate closes exactly for an eligible input, and then there is one M15 setup with positive net reward and a spread of at most a tenth of the stop |
| GatesLegacy.MissingAgree | assessments/legacy.py:35-42 | the lists of missing blocks of both frozen versions, filtered then prefixed, or started then extended, are the engine's |
| GatesLegacy.ZonesAgree | assessments/legacy.py:58-62 | the frozen loop over the blocks collects the engine's zones |
| GatesLegacy.TwinsAgreeIff | assessments/legacy.py:152-190 | engine and frozen empty projection agree field for field, exactly unless an unknown event has a null detail |
| GatesLegacy.TwinsDisagree | assessments/legacy.py:152-190 | a snapshot with an unknown event and a null detail on which they differ |
| GateBoards.GateBoard.Close | assessments/engine.py:42-48 | the in-place closing appends exactly that closing to what the board says |
| GateBoards.GateBoard.PrimaryReason | assessments/engine.py:51-52 | the loop finds the primary reason of the board |
| GateBoards.GateBoard.AttributeEvaluations | assessments/engine.py:163-186 | the evaluation loop closes and attributes as specified |
| GateBoards.BuildAssessment | assessments/engine.py:142-369 | the in-place run returns the specified record, and a candidate exactly for eligible inputs |

## Left out

- Contract versions 1 to 3 and their legacy projections: not governed any more.
- Supersession of one selection by another (`forecasts/portfolio.py:371-445`): a version 4 cohort is never selected twice, so that path is not reachable and not modelled.
- `owner_decision_deadline`, `cohort_has_triggered`: the deadline is computed from the members' maturities, the trigger verdict is an input of the owner's selection.
- Recommendation and evidence validators other than those named: their verdicts are booleans carried by the commands.
- `reconcile_lifecycle` as one pass: its steps are commands of the portfolio's runs, in any order and number.
- Fixed wall clock: a daylight-saving change shifts UTC durations by an hour inside the weekly closure. Two modelled quantities span such changes in UTC: the fourteen-day bound, which has days to spare, and the paging window of 4999 steps (`market/oanda.py:113-126`), which the model measures on the wall clock.
- Paging against a failing or malformed provider: errors raise before anything is returned.
- Conversion.QuoteToCad: rates along the chain are exact; the source multiplies and divides in 28-digit decimals before it rounds.
- Sizing.SizeIsGreatest: exact division; the source divides in 28-digit decimals before flooring.
- Calibration.CalibrationError: exact up to the final rounding; the source works in 28-digit decimals.
- The Hoeffding width is any non-negative number.
- Populations.TallyTargets: hit rates and sharpness repeat the same grouping and are not modelled.
- PopulationStatus.AssessStatus: which champion samples count (`forecasts/populations.py:172-193`) is an input, as the scores of the champion by target.
- Execution metrics, review projections, notifications, audit events, digests and canonical JSON.
- GatesLegacy.TwinsAgreeIff: JSON blocks are opaque texts, and details that are neither text nor null (on which the engine raises) are not representable; the gate list of version 1, which version 1.1 replaces, is not modelled.
- A cost component beyond the four required ones with a null value, on which the engine raises, is not representable; any other further component is summed.
- The timestamps of an M15 setup: their comparison with the registered successor enters the gates as a verdict.
- Acquisition: transport, payload validation and the governed evidence of registration beyond the ledger itself.
