# IRMA verification

A model of the calculating and the storing parts of IRMA, an investment research assistant, with proofs about it.

- **Backtest** (`Backtest`, `BacktestLedger`, `BacktestSignals`, `BacktestRelations`, `BacktestRun`,
  `BacktestStatistics`): a flat-or-long account driven over a list of bars with fees, slippage, half the spread, a
  liquidity gate, decisions from earlier closes only, and a forced sale at the end. `BacktestRun` is the loop; the
  others prove what it conserves, when it is long and what it is worth in prices, how two runs compare and how the trade
  figures hang together.
- **Risk and savings** (`Finance`, `Savings`): drawdown and recovery in one pass against their quadratic meaning, and
  the two compounding modes of the savings plan.
- **Provider** (`Circuit`, `CircuitRuns`, `CircuitPauses`, `CircuitReplies`, `FipiranCatalogue`, `FipiranHistory`):
  the circuit breaker and retry loop as a timed state machine whose environment chooses every reply, delay and clock
  step, and what the provider keeps of a payload.
- **Ingestion** (`NavTable`, `NavContents`, `Backfill`, `BackfillRuns`, `BackfillFigures`, `FipiranBackfill`, `Refresh`,
  `RefreshRuns`, `RefreshUnique`, `RefreshTwice`, `RefreshContents`): a committed and a working copy of the tables, with
  exceptions and crashes at any point of a resumable backfill and of an atomic refresh, and what their rows hold.
- **Recommendation** (`Allocation`, `AllocationRules`, `AllocationFigures`, `AllocationCaution`, `AllocationNeeds`,
  `AllocationAmounts`, `AllocationCapital`): the rule pipeline over six percentages, the same rules in percentage points,
  what more cautious or needier profiles get, the rounding of amounts, and which capitals it accepts.
- **Comparison** (`Correlation`, `CorrelationFit`, `Ranking`, `RankingFigures`, `Ordering`): the correlation coefficient
  and what it says about straight lines, the evidence-gated fund ranking, and the stable sort both it and the history
  reader rely on.
- `Arith` and `Common` hold arithmetic facts, sums and shared datatypes.

Floats and decimals are exact reals, dates are day numbers, and a moment is an instant in seconds with the offset of the
clock that tells it: instants are compared, days are read on that clock. Whether a query sees rows that are
still pending in its session is the parameter `autoflush`: `src/irma/persistence/database.py:18` turns it off and
`tests/conftest.py:22` leaves it on, and the results about unique rows say exactly what each setting needs.

The program's decisions are functions that its methods are proved against. What those functions say is stated once more
without them, in the closes, replies, records, percentage points and metrics the program is given: the results named
`...InFigures`, `...InPrices` and `...InTrades`, with `LongExactlyWhen`, `RowsHoldRecords` and `CommittedRows`.

Where the code and its documentation differ the model follows the code:

- `docs/fipiran-provider.md:17` promises one trial request after the cooldown. The retry loop checks the breaker only
  before it sleeps, so the trial call sends up to `retries + 1` requests (`CircuitRuns.SingleTrialOnlyWithoutRetries`),
  and without a pause between them (`CircuitPauses.TrialRetriesAtOnce`).
- `docs/fipiran-provider.md:12` retries every 5xx status; the code retries 500, 502, 503 and 504 only.
- An allocation may come out with a negative last bucket, which the item type refuses; `AllocationAmounts.AcceptedIff`
  says exactly when.
- The refresh lock is kept when the commit at `src/irma/services/data_refresh.py:88` raises.
- Rows can repeat a day without autoflush: for two instants of one day in a history, and for the last catalogue row,
  which is still pending when the first selected history is read, if that is the history of its fund.

## Model

| member | source | states |
|---|---|---|
| BacktestRun.TradeBars | src/irma/trading_engine/backtest.py:97-138 | the pass over the bars, with its branches in source order, ends in the account `Replay` gives after all bars |
| BacktestRun.TradeAllBars | src/irma/trading_engine/backtest.py:97-150 | the pass over the bars and the forced sale end with the costs, invested periods, equity curve and trade returns of the account state machine `Final` |
| BacktestRun.RunBacktest | src/irma/trading_engine/backtest.py:94-188 | total return, drawdown, trade figures, exposure and costs of a run: one trade per round trip, costs equal to what the ledger is missing, every trade its round trip in prices, exposure counted on the bars whose closes want a position, drawdown the largest loss over all pairs of points of the curve with its floor of 1e-12, which is the curve itself when every point is at least that |
| BacktestLedger.HoldingIsLatestLiquidSignal | src/irma/trading_engine/backtest.py:107-139 | after any number of bars the run is long exactly when the signal, computed from earlier closes only, was on at the latest liquid bar |
| BacktestSignals.LongExactlyWhen | src/irma/trading_engine/backtest.py:78-123 | after any number of bars the run holds a position exactly when, on the last bar that could be traded, the slow window was full and the closes before it met the rule: slow times the sum of the last fast closes above fast times that of the last slow ones; the last close above the one fast - 1 bars before it; 100 times slow times the last close below 97 times the sum of the slow window; or no close of the slow window above the last |
| BacktestSignals.RisingMarket | src/irma/trading_engine/backtest.py:78-123 | on strictly rising closes the three trend strategies are long from the first tradable bar with a full window on, and mean reversion never is |
| BacktestSignals.FallingMarket | src/irma/trading_engine/backtest.py:78-123 | on strictly falling closes the three trend strategies never trade |
| BacktestSignals.EquityInPrices | src/irma/trading_engine/backtest.py:117-138 | the curve in prices: the capital the trades compound to while flat; while long that capital less one fee, moved from the entry close with slippage and half the spread on top to the last close |
| BacktestSignals.TradesInPrices | src/irma/trading_engine/backtest.py:117-150 | every trade return in prices: two fees off, slippage and half a spread on the entry close and off the exit close, and the final equity compounds exactly these |
| BacktestLedger.LedgerConserved | src/irma/trading_engine/backtest.py:117-138 | after every bar: equity plus total costs is the initial capital plus quantity times close-to-close gain over all finished trips, plus the open gain |
| BacktestLedger.FinalLedger | src/irma/trading_engine/backtest.py:140-150 | after the forced liquidation: final equity plus total costs is the initial capital plus the gross price profit of all trips |
| BacktestLedger.FinalTradesAreTrips | src/irma/trading_engine/backtest.py:118-133 | there is one trade return per round trip; each is the ratio of the two costed prices less both fees, and each trip invests everything earned before it |
| BacktestLedger.TradesTelescope | src/irma/trading_engine/backtest.py:129-150 | final equity is the initial capital compounded by all trade returns |
| BacktestLedger.FinalShape | src/irma/trading_engine/backtest.py:99-150 | the curve has one entry more than there are bars, starts at the initial capital, stays positive everywhere, and ends in cash with no open position |
| Backtest.ReplayShape | src/irma/trading_engine/backtest.py:134-138 | after k bars: k closes seen, k + 1 positive equity entries, the last one the worth of the account at the last close |
| BacktestRun.PeriodReturnsTelescope | src/irma/trading_engine/backtest.py:159-163 | on a positive curve the positivity filter drops nothing and the period returns compound from the first entry to the last |
| BacktestRun.PeriodReturnsInFigures | src/irma/trading_engine/backtest.py:159-163 | each of them takes its point of the curve to the next one |
| BacktestRun.ReturnsTelescope | src/irma/trading_engine/backtest.py:152-163 | compounding the trade returns and compounding the period returns both give the total return |
| BacktestRun.InvestedCountsLongBars | src/irma/trading_engine/backtest.py:134-136 | the invested-period counter is the number of bars after which the run is long |
| BacktestRelations.NoLookAhead | src/irma/trading_engine/backtest.py:105-138 | two requests with the same parameters and the same first k bars have equal curves on their first k + 1 entries, whatever comes later, forced sale included |
| BacktestRelations.CloseOfBarDoesNotDecide | src/irma/trading_engine/backtest.py:106-123 | two runs that differ in bar k only by its close hold the same position state after bar k |
| BacktestRelations.CheaperIsNeverWorse | src/irma/trading_engine/backtest.py:105-150 | with lower or equal fee and slippage: same trips, and curve, trade returns and final equity at least those of the dearer run, point by point |
| BacktestRelations.SignalScaled | src/irma/trading_engine/backtest.py:78-91 | none of the four strategies reads more than price ratios |
| BacktestRelations.CapitalScaleInvariance | src/irma/trading_engine/backtest.py:94-150 | capital times kappa: curve and costs times kappa, the same trade returns |
| BacktestRelations.PriceScaleInvariance | src/irma/trading_engine/backtest.py:78-150 | all closes times mu: the same curve, costs and trade returns |
| BacktestStatistics.AveragesHaveSign | src/irma/trading_engine/backtest.py:155-172 | the average win exists exactly when a trade won and is positive, the average loss exactly when one lost and is negative |
| BacktestStatistics.FiguresAgree | src/irma/trading_engine/backtest.py:155-174 | the expectancy times the number of trades is gross gain less gross loss; the profit factor exists exactly when a trade lost, and is above, at or below one as the expectancy is above, at or below zero |
| BacktestStatistics.FiguresInTrades | src/irma/trading_engine/backtest.py:155-174 | on the trades themselves: the win rate times their number counts those above zero, the two averages times their counts are what was won and lost, the expectancy averages all, and the profit factor times the losses is the gains |
| Finance.CumulativeReturn | src/irma/domain/finance.py:32-38 | the compounded growth less one, or the error exactly when a return is below -1 |
| Finance.MaximumDrawdown | src/irma/domain/finance.py:84-94 | the one-pass result is the largest relative loss over all pairs i <= j; empty or non-positive series are refused |
| Finance.MaximumDrawdownUnique | src/irma/domain/finance.py:84-94 | that quadratic meaning leaves one value |
| Finance.MaximumDrawdownRange | src/irma/domain/finance.py:84-94 | it lies in [0, 1) and is zero exactly for non-decreasing series |
| Finance.MaximumDrawdownScaled | src/irma/domain/finance.py:84-94 | it does not change under positive scaling |
| Finance.DrawdownInFigures | src/irma/domain/finance.py:84-94 | on the values: m is the maximum drawdown exactly when no later value is below 1 - m times an earlier one and some value is exactly that |
| Finance.RecoveryPeriod | src/irma/domain/finance.py:134-157 | distance from the earliest peak before the first deepest trough to the first index back at that peak; None exactly when there is none; zero when nothing was lost; and the division error for a zero peak |
| Finance.DeepestIsMaximumDrawdown | src/irma/domain/finance.py:141-150 | the worst drawdown of the recovery scan is the maximum drawdown |
| Finance.RecoveryMeaning | src/irma/domain/finance.py:151-157 | on positive series the period is zero exactly when the series never falls, and any other recovery takes at least two steps |
| Finance.RecoveryInFigures | src/irma/domain/finance.py:134-157 | on positive values: zero when the series never falls; otherwise there is one deepest fall, compared by cross products and the first of its depth, and the period is the distance from its peak to the first later value as high again |
| Savings.CompoundWithContributions | src/irma/domain/finance.py:169-205 | the timeline is the balance recursion of the chosen mode at every month with its deflated value, totals and profit follow from it, the four argument errors come in source order, and monthly compounding of a rate below -1 ends in the error of a complex balance |
| Savings.AnnuityDue | src/irma/domain/finance.py:189-192 | monthly mode in closed form at every month: principal and contributions grown as an annuity-due |
| Savings.AnnuityWithoutInterest | src/irma/domain/finance.py:189-192 | without interest the balance is what was paid in |
| Savings.ModesOrderedAtYearEnds | src/irma/domain/finance.py:188-194 | at every multiple of 12 months the annual-mode balance is at least the monthly one for a >= 0, at most for a < 0, and equal without contributions |
| Savings.AnnualAnnuityDue | src/irma/domain/finance.py:188-194 | annual mode in closed form at every year end: an annuity-due of twelve contributions a year |
| Savings.AnnualWithinYear | src/irma/domain/finance.py:188-194 | between year ends the annual balance only grows by what is paid in |
| Savings.RealValueInflates | src/irma/domain/finance.py:195-196 | a deflated balance times the inflation of its months is the balance; at year ends the inflation is the yearly factor to the number of years |
| Circuit.FipiranProvider.CheckCircuit | src/irma/providers/fipiran.py:158-163 | lets the call through exactly when the breaker is not cooling down, and clears the opening time then |
| Circuit.FipiranProvider.RecordFailure | src/irma/providers/fipiran.py:165-170 | one failure more, its reason, and open from now on when the threshold is reached |
| Circuit.FipiranProvider.RecordSuccess | src/irma/providers/fipiran.py:172-176 | failures, opening time and reason are cleared |
| Circuit.FipiranProvider.SendWithRetries | src/irma/providers/fipiran.py:183-227 | the retry loop does what the recursive account of it says: permanent replies end it, an open breaker only drops the pause |
| Circuit.FipiranProvider.Request | src/irma/providers/fipiran.py:178-227 | one call changes the provider and sends requests as `AfterCall` says; unless it is refused it ends with the first reply that ends a call, or the last attempt, and returns that reply |
| CircuitReplies.CallInFigures | src/irma/providers/fipiran.py:158-227 | a call checks the breaker on arrival or when the minimum interval is over; it is refused exactly while less than the cooldown has passed since the opening; otherwise it sends one request more than the index of the first reply that is accepted, blocked, of a broken contract or of a status other than 408, 425, 429, 500, 502, 503 and 504, at most retries + 1; its result, the failures, the reason, the opening time, the pauses between requests and the last answered moment are those of these replies |
| CircuitRuns.CallKeepsContract | src/irma/providers/fipiran.py:158-227 | every call keeps the breaker coherent, sends nothing exactly when it is refused, which happens only to an open breaker, and otherwise at most retries + 1 requests after the cooldown, none of them answered but the last |
| CircuitRuns.FailuresAreTrailing | src/irma/providers/fipiran.py:165-176 | over any run the failure counter is the number of failed requests since the last success |
| CircuitRuns.OpenExactlyAtThreshold | src/irma/providers/fipiran.py:158-176 | at every call boundary the breaker is open exactly when those failures reach the threshold, or one when it is lower |
| CircuitRuns.StaysOpen | src/irma/providers/fipiran.py:158-176 | without a success an open breaker stays open and its opening time never moves back |
| CircuitRuns.SendsAreSpaced | src/irma/providers/fipiran.py:158-170 | once open and without a success, requests of different calls are at least a cooldown apart |
| CircuitRuns.RequestRateBound | src/irma/providers/fipiran.py:158-227 | hence any window of length T holds requests of at most floor(T / cooldown) + 1 calls, and at most retries + 1 times as many requests |
| CircuitPauses.RequestTimes | src/irma/providers/fipiran.py:184-225 | request k + 1 of a call follows request k after exactly its reply time plus, while the breaker is closed, the backoff |
| CircuitPauses.ClosedCallsBackOff | src/irma/providers/fipiran.py:216-225 | while the breaker stays closed a retry waits at least 2^k seconds, or the announced Retry-After, up to 30 |
| CircuitPauses.TrialRetriesAtOnce | src/irma/providers/fipiran.py:165-225 | the retries of a trial call follow each other without any pause |
| CircuitRuns.WorstTrial | src/irma/providers/fipiran.py:184-225 | from any half-open state there is an environment in which the trial call sends retries + 1 requests |
| CircuitRuns.SingleTrialOnlyWithoutRetries | src/irma/providers/fipiran.py:184-225 | a half-open call sends at most one request in every environment exactly when retries = 0 |
| FipiranCatalogue.FetchCatalogue | src/irma/providers/fipiran.py:256-310 | accepted exactly when repeated registration numbers agree in all identifying fields and no known fund has a non-positive NAV, and otherwise the error names such a number; the records are then, in order and field by field, those of the first item of every number with a known type |
| FipiranCatalogue.ExternalIdsDistinct | src/irma/providers/fipiran.py:270-278 | accepted records have distinct external ids |
| FipiranCatalogue.RecordsCover | src/irma/providers/fipiran.py:270-278 | and cover exactly the registration numbers of a known type |
| FipiranCatalogue.CatalogueInFigures | src/irma/providers/fipiran.py:256-310 | the records in their order are those of the first items with one of the seven known codes, field by field: the type by the code, the statistical NAV or, when that is missing or zero, the cancellation NAV |
| FipiranCatalogue.AcceptanceInFigures | src/irma/providers/fipiran.py:258-287 | a payload is accepted exactly when any two items of one number agree and no item of a known type has a NAV of zero or less |
| FipiranHistory.FetchNavHistory | src/irma/providers/fipiran.py:318-336 | accepted exactly when the first item of every instant has a positive NAV; later items of an instant are never looked at; what is accepted is in time order and holds exactly what these first items tell |
| FipiranHistory.HistoryIncreases | src/irma/providers/fipiran.py:320-324 | the history is strictly increasing in time for every payload order |
| FipiranHistory.HistoryHolds | src/irma/providers/fipiran.py:320-335 | it holds the first listed item of every instant and nothing else |
| FipiranHistory.HistoryInFigures | src/irma/providers/fipiran.py:320-335 | an observation is in the history exactly when it has the moment and the NAV of the first listed item of an instant, no net assets and valid quality |
| FipiranHistory.DistinctDaysIff | src/irma/providers/fipiran.py:320-324 | its days, each read on the item's own clock, are distinct exactly when no two items that are first for their instants share a day |
| FipiranHistory.FirstHistoryUniqueIff | src/irma/services/data_refresh.py:227-250 | without autoflush a fund's first history is stored with one row a day exactly under that condition |
| FipiranHistory.OnOneClock | src/irma/providers/fipiran.py:320-324 | with a single offset the condition is that every day has one instant |
| FipiranHistory.OffsetsShareADay | src/irma/providers/fipiran.py:321-324 | two items on different UTC days, with different offsets, that are stored on one day |
| NavTable.NewRowsUniqueIff | src/irma/services/fund_backfill.py:57-81 | the rows one history adds have distinct days exactly when queries see pending rows or no two usable records share a day that was not stored |
| NavContents.RowsHoldRecords | src/irma/services/fund_backfill.py:55-81 | the rows a history adds, field by field: in the order of the records each holds the NAV, moment, quality, source and day of one of them, and those are, with autoflush, the first usable records of days not stored, without it all usable records of such days |
| NavContents.LastDateIsLatest | src/irma/services/fund_backfill.py:82-82 | the last date of a checkpoint is the latest day of a usable record, and what it was without one |
| Backfill.Session.Ingest | src/irma/services/fund_backfill.py:55-82 | the record loop adds exactly the rows of the usable records of new days, field by field, and moves the last date to the latest usable day |
| Backfill.Session.ProcessFund | src/irma/services/fund_backfill.py:42-102 | the turn of one fund, with an exception or a crash anywhere in it: committed is its success, its recorded failure, or the state before it |
| Backfill.Session.BackfillFundHistory | src/irma/services/fund_backfill.py:26-107 | one call, dying anywhere: the committed state is `AfterCall`, and the table has only grown by rows that hold, field by field, usable records of the histories of the job's funds |
| BackfillRuns.CallKeepsInvariant | src/irma/services/fund_backfill.py:40-107 | every call keeps: a fund is done with exactly its share of rows or untouched, the counters count the done funds and their rows, nothing outside the run changes |
| BackfillRuns.CallsKeepInvariant | src/irma/services/fund_backfill.py:40-107 | so do all sequences of calls from an unused run id |
| BackfillRuns.ResumeConfluence | src/irma/services/fund_backfill.py:40-107 | any sequence of calls that ends with every fund completed leaves the rows and counters of one undisturbed call, and its checkpoints up to the text of an earlier error, which a fund that failed once keeps |
| BackfillFigures.CommittedRows | src/irma/services/fund_backfill.py:40-107 | after any calls, failures and crashes a completed fund has, behind its earlier rows, exactly the rows of its history's records and the latest of their days in its checkpoint; any other fund has nothing new |
| BackfillFigures.CleanCallStoresEverything | src/irma/services/fund_backfill.py:40-107 | one undisturbed call leaves every fund so completed |
| BackfillFigures.CallTells | src/irma/services/fund_backfill.py:26-107 | one call, with the fund it dies on: every fund before it has its turn told by its checkpoint, later ones keep theirs, the run gains one line per failure in order, and its status becomes completed or completed with errors exactly when the last commit is reached |
| BackfillRuns.CleanCallCompletes | src/irma/services/fund_backfill.py:40-107 | from every state one undisturbed call completes every fund |
| BackfillRuns.CleanResumeFinishesTheJob | src/irma/services/fund_backfill.py:40-107 | after any interrupted calls one undisturbed call reaches the undisturbed result |
| BackfillRuns.ErrorsAreNeverForgotten | src/irma/services/fund_backfill.py:39-107 | a run that recorded an error never again ends as plainly completed, however well it resumes |
| BackfillRuns.RowsStayUniqueIff | src/irma/services/fund_backfill.py:56-82 | over all sequences of calls rows stay unique per fund and day exactly when queries see pending rows or no committed history has two new records on one day |
| FipiranBackfill.CleanPayloadsKeepRowsUnique | src/irma/services/fund_backfill.py:57-82 | a backfill fed by the history reader keeps rows unique without autoflush, over any calls, when the first items of every committed payload fall on different days |
| FipiranBackfill.FirstBackfillUniqueIff | src/irma/services/fund_backfill.py:57-82 | from an empty table and without a start date, exactly then |
| FipiranBackfill.RowsTellPayloads | src/irma/providers/fipiran.py:320-335 | from payload to table: after any calls every row a fund has gained has the NAV and the moment of the first listed item of its instant in the fund's payload |
| BackfillRuns.RepeatedDayExample | src/irma/services/fund_backfill.py:57-81 | a concrete history with two records on one day that is stored twice without autoflush |
| Allocation.AllocationBook.Transfer | src/irma/domain/recommendation.py:128-139 | the loop moves min(amount, what the sources hold), and the new percentages are the greedy transfer |
| Allocation.AllocationBook.EnforceMinimums | src/irma/domain/recommendation.py:142-152 | volatile categories below their executable amount go to fixed income, in place |
| Allocation.MovedMeaning | src/irma/domain/recommendation.py:128-139 | each source gives what the earlier ones could not, the target receives the sum, the rest is untouched |
| Allocation.EarlierSourcesFirst | src/irma/domain/recommendation.py:131-138 | a later source gives only once every earlier one is empty |
| AllocationAmounts.ApplyRules | src/irma/domain/recommendation.py:160-236 | the rules in source order, in place, end with the percentages `FinalPercents` |
| AllocationRules.CashBuffer | src/irma/domain/recommendation.py:165-174 | both cash rules are served in full for every profile |
| AllocationRules.DrawdownCaps | src/irma/domain/recommendation.py:197-215 | growth plus trading exposure ends at the cap when it was above it, and is otherwise left alone |
| AllocationRules.CapsSurvive | src/irma/domain/recommendation.py:160-236 | for every profile: percentages non-negative with sum 100, short-term within its trading cap, growth plus trading within 10 or 30, nothing short-term for a passive profile, cash exactly base plus liquidity and emergency moves |
| AllocationFigures.FinalInFigures | src/irma/domain/recommendation.py:160-236 | for every profile the final percentages are the last of nine stages that obey the rules in percentage points: the base table, the amounts asked for by each rule, what every source gives in turn, the caps of 10 and 30, the trading limits of 20, 3 and 5, and the minimums of 100,000 and 500,000 toman |
| AllocationFigures.OneRecommendation | src/irma/domain/recommendation.py:160-236 | these rules leave one recommendation for a profile |
| AllocationFigures.FixedIncomeInFigures | src/irma/domain/recommendation.py:176-236 | fixed income, rule by rule: the base plus always the whole 10 points for income; plus 25 or all that is not cash or fixed income yet for up to six months, 10 or all of short-term and equity for up to twelve; plus what the caps, the style and the minimums take from the other categories |
| AllocationNeeds.NeedsNeverAddRisk | src/irma/domain/recommendation.py:176-236 | two profiles through all the rules: a need for income or a shorter horizon never leaves more gold, growth or trading exposure, nor less fixed income, and the same cash |
| AllocationCaution.DrawdownMonotone | src/irma/domain/recommendation.py:197-215 | a lower tolerance never leaves more of any volatile category after the drawdown rule |
| AllocationCaution.CautionNeverAddsRisk | src/irma/domain/recommendation.py:197-236 | two profiles through all the rules: a lower tolerance, trading cap or capital never leaves more gold, growth or trading exposure, nor less fixed income, and the same cash |
| AllocationRules.MinimumsHold | src/irma/domain/recommendation.py:142-152 | every non-empty category is executable at the end |
| AllocationAmounts.RecommendAllocation | src/irma/domain/recommendation.py:155-285 | the items in category order with the percentages the rules give in points, five amounts to the nearest toman and the rest of the capital; refused exactly when that rest is negative |
| AllocationAmounts.AmountsAdd | src/irma/domain/recommendation.py:246-256 | the six amounts sum to the capital exactly |
| AllocationAmounts.ResidualNearShare | src/irma/domain/recommendation.py:250-256 | the last bucket is within 2.5 toman of its exact share |
| AllocationAmounts.AmountsExecutable | src/irma/domain/recommendation.py:142-152 | every non-zero category's amount meets its minimum, the last one up to that slack |
| AllocationAmounts.AcceptedIff | src/irma/domain/recommendation.py:246-256 | the amounts are accepted exactly when a short-term share is left or the rounded shares of capital modulo 100 do not exceed capital modulo 100; every multiple of 100 is accepted |
| AllocationCapital.TwentiesAccepted | src/irma/domain/recommendation.py:160-256 | every capital that is a multiple of 20 toman is accepted, whatever the profile |
| AllocationCapital.NeverBelowMinusTwo | src/irma/domain/recommendation.py:246-256 | for a whole capital the last bucket is never below -2 |
| AllocationAmounts.RejectedExample | src/irma/domain/recommendation.py:85-88 | a valid profile with 1,000,050 toman whose last bucket is -1 |
| Refresh.RefreshCoordinator.UpsertRecord | src/irma/services/data_refresh.py:95-198 | one catalogue record: source counter and facts, the fund found by id, symbol or name and overwritten, and its NAV and market rows if their day is free |
| RefreshContents.RecordInFigures | src/irma/services/data_refresh.py:95-198 | one catalogue record, field by field: it lands on the first fund with its external id, else with its non-empty symbol, else with its name and type, else on a new one; that fund and its source take its facts, its NAV and quote become rows unless their day is taken; it is refused exactly when two funds would share a key |
| Refresh.RefreshCoordinator.RefreshHistory | src/irma/services/data_refresh.py:221-258 | one selected fund: missing days added, flush, metrics rebuilt |
| RefreshContents.TurnInFigures | src/irma/services/data_refresh.py:221-258 | the turn of a selected fund: behind the stored rows come the rows of its history, field by field, and with two rows or more its metrics are those of its rows, its latest row, source and quality |
| Refresh.RefreshCoordinator.RefreshFunds | src/irma/services/data_refresh.py:77-282 | one call with faults anywhere: an error leaves every table as it was, a refused call everything, the lock is lost exactly when the run commit raises, and committed state and outcome are `AfterRefresh` |
| RefreshRuns.HistoryIsAppendOnly | src/irma/services/data_refresh.py:95-262 | over any sequence of refreshes a committed NAV or market row is never changed, moved or removed |
| RefreshContents.EveryRowHasOrigin | src/irma/services/data_refresh.py:95-262 | every NAV row a refresh commits is that of a catalogue record, on the fund of that record, or of an observation of an active fund's history, on the fund with its external id |
| RefreshContents.SuccessIsRecorded | src/irma/services/data_refresh.py:260-270 | a refresh that returns leaves the lock free and one successful run with the number of its records |
| RefreshContents.ErrorsHaveCauses | src/irma/services/data_refresh.py:84-282 | every error of a refresh has its cause: the lock, a commit, the fetch, an outside fault, or what the tables and records hold |
| RefreshRuns.FailedRefreshChangesNothing | src/irma/services/data_refresh.py:271-282 | a call that raises leaves every table as it was and one run marked as an error; a call refused by the lock changes nothing |
| RefreshRuns.LockReleasedUnlessRunCommitFails | src/irma/services/data_refresh.py:84-90 | the lock is free afterwards unless the commit of the run row raised, which happens outside the `try` |
| RefreshRuns.LostLockStopsRefreshing | src/irma/services/data_refresh.py:84-88 | after such a commit every later refresh of the process is refused |
| RefreshUnique.HistoryKeepsUniqueIff | src/irma/services/data_refresh.py:228-250 | one history keeps the rows unique exactly when queries see pending rows, or it has one record per new day and none on a day still pending for the fund |
| RefreshUnique.TurnsCleanIff | src/irma/services/data_refresh.py:221-258 | the condition on every turn of the history pass is that condition on the loaded catalogue, for repeated records too |
| RefreshUnique.PendingRow | src/irma/services/data_refresh.py:143-164 | the only row that can be pending when the history pass starts is that of the last catalogue record |
| RefreshUnique.RefreshUniqueIff | src/irma/services/data_refresh.py:145-262 | a whole refresh keeps rows unique exactly when it fails, sees pending rows, or finds on the loaded catalogue that no fetched history repeats a day that is not stored and the first one has nothing on the day of a pending row |
| RefreshUnique.RowsStayUnique | src/irma/services/data_refresh.py:145-262 | with pending rows visible, one NAV row and one market row per fund and day after any sequence of refreshes |
| RefreshUnique.PendingCatalogueRowExample | src/irma/services/data_refresh.py:152-164 | without autoflush the last catalogue row, still pending, is stored again when its fund's history is the first to be read |
| RefreshRuns.SelectionIsFair | src/irma/services/data_refresh.py:202-220 | a limited pass uses its limit in full, and no selected fund has more stored rows than an unselected active one |
| RefreshContents.SelectionInFigures | src/irma/services/data_refresh.py:202-220 | for every limit: the active records, each as often as it is listed, by number of stored rows and then external id, cut to the limit |
| RefreshTwice.FirstRefreshSettles | src/irma/services/data_refresh.py:95-258 | an undisturbed refresh of distinct records leaves every record, day and metric in place |
| RefreshTwice.SecondRefreshChangesNothing | src/irma/services/data_refresh.py:95-262 | a second identical refresh adds no fund, NAV or market row and changes no metric |
| RefreshTwice.RefreshCountsRecords | src/irma/services/data_refresh.py:197-197 | the record counter of each source still grows by its number of records, every time |
| Correlation.CauchySchwarz | src/irma/analytics/series.py:84-88 | the squared cross sum is at most the product of the square sums |
| Correlation.CauchySchwarzEquality | src/irma/analytics/series.py:84-88 | with equality exactly when one series is a multiple of the other |
| Correlation.SpreadZeroIffConstant | src/irma/analytics/series.py:85-88 | the centred square sum vanishes exactly for constant series |
| Correlation.CorrelationRange | src/irma/analytics/series.py:80-89 | the correlation lies in [-1, 1] and is None exactly when a series is constant |
| CorrelationFit.PerfectBySign | src/irma/analytics/series.py:80-89 | it is 1 exactly when all differences of one series are those of the other times a positive number, and -1 exactly when they are those times a negative one |
| CorrelationFit.CorrelationOfLine | src/irma/analytics/series.py:80-89 | a series that moves correlates with k times itself plus a shift as 1 for positive k and as -1 for negative k |
| CorrelationFit.FitLaw | src/irma/analytics/series.py:80-89 | for every best straight line of one series over the other and every best constant, the squared error of the line is 1 - r * r times that of the constant, and its slope is positive, zero or negative as r is |
| CorrelationFit.BestsExist | src/irma/analytics/series.py:80-89 | there is such a line and such a constant when the other series moves |
| Correlation.CorrelationSymmetric | src/irma/analytics/series.py:80-89 | it is symmetric |
| Correlation.CorrelationAffine | src/irma/analytics/series.py:80-89 | it does not change when one series is rescaled by a positive factor and shifted |
| Ranking.RankFunds | src/irma/services/fund_rankings.py:31-107 | the pass appends, counts, sorts and numbers: the items are the ranking, and each reason is reported exactly when it excluded a fund, with the number it excluded |
| Ranking.EligibleIff | src/irma/services/fund_rankings.py:44-58 | a fund passes the gate exactly with valid quality, 90 observations, data less than eight full days old and the four metrics |
| RankingFigures.ExclusionInFigures | src/irma/services/fund_rankings.py:44-60 | each of the five reasons excludes a fund exactly when it is the first of them that applies: quality, 90 rows, a moment, less than eight full days, the four metrics |
| Ranking.EveryFundAccounted | src/irma/services/fund_rankings.py:59-61 | ranked plus excluded funds are the known funds |
| Ranking.BetterEvidence | src/irma/services/fund_rankings.py:65-79 | a fund no worse in every stored metric never scores lower, the clamps and the rounding included |
| Ranking.RoundNear | src/irma/services/fund_rankings.py:86-86 | the rounded score is the only integer of millionths within a half that is even when there are two |
| Ranking.ScoreRange | src/irma/services/fund_rankings.py:71-86 | scores lie between -0.35 and 1 when the positive ratio and the quality are in [0, 1] |
| RankingFigures.ScoreInFigures | src/irma/services/fund_rankings.py:16-86 | the score in millionths is the nearest whole number to 250000 times the clamped yearly return, 100000 times the clamped Sharpe ratio, 200000 times what the drawdown left, 150000 times the share of gains, and 100000 each for up to 1095.75 days of history and the data quality |
| Ranking.WeightedExtremes | src/irma/services/fund_rankings.py:16-23 | the bounds are met only by a fund that is perfect, or worst, in every component at once |
| Ranking.AnalyticsInRange | src/irma/analytics/funds.py:63-75 | which the fund analytics guarantee |
| RankingFigures.AnalyticsInFigures | src/irma/analytics/funds.py:63-75 | the positive ratio times the number of steps counts the rises, and 252 rows over more than a day have full quality |
| Ranking.AnalysedScore | src/irma/services/fund_rankings.py:65-86 | a fund whose stored metrics are those of its NAVs scores in that range, and its drawdown component is one less the maximum drawdown of the NAVs |
| Ranking.RankedScoresInRange | src/irma/services/fund_rankings.py:79-97 | so does every fund of a ranking of such funds |
| Ranking.RankedAreEligible | src/irma/services/fund_rankings.py:38-96 | the ranked candidates are exactly the eligible funds |
| RankingFigures.ReportInFigures | src/irma/services/fund_rankings.py:31-107 | the report in figures: as many items as funds pass, ranked from one, each with the name, score, components and observations of one of them; the known funds; and the number that fails for each reason |
| RankingFigures.PassingIsRanked | src/irma/services/fund_rankings.py:38-96 | every fund that passes has an item that stands for it |
| Ranking.RanksInOrder | src/irma/services/fund_rankings.py:97-99 | ranks increase, scores never do, equal scores are in name order |
| Ranking.RankIsPosition | src/irma/services/fund_rankings.py:97-99 | a rank is one more than the number of candidates strictly ahead, up to exact ties |
| Ranking.InputOrderIrrelevantIff | src/irma/services/fund_rankings.py:97-99 | the order in which funds are read has no influence exactly when no two different candidates share score and name |
| Ordering.ArrangementUnique | src/irma/services/fund_rankings.py:97-97 | order and stability leave one arrangement, which fixes what the library sort returns |
| Ordering.LexOrderIs | src/irma/services/fund_rankings.py:97-97 | names are compared as strings: a prefix comes first, and otherwise the first difference decides |

## Left out

- Floating-point rounding, and the 28-digit context of decimal arithmetic: amounts and prices are exact reals.
- BacktestRun.RunBacktest: does not report the annualised return and the Sharpe ratio, because they are a fractional power
  and a square root.
- Volatility, Sortino and the other annualised figures: roots and fractional powers.
- Moments without a time zone mixed with moments that have one: sorting them raises; a moment without one counts as UTC.
- The square root of the correlation and the twelfth roots of the savings plan are parameters with their defining equation.
- The input hash, the rule and warning texts, the explanatory item fields and the review date: text and clock.
- HTTP, JSON, HTML detection, logging, provenance metadata and the trimming of names: an attempt has an abstract outcome.
- Exceptions other than the three classes the request loop catches: they pass through without being recorded. In a trial
  call the opening time has been cleared by then, so they leave a closed breaker with its failures at the threshold,
  which `CircuitRuns.OpenExactlyAtThreshold` does not cover.
- The reported times of the last success and failure of the circuit: nothing reads them back.
- The database itself: tables are sequences and maps, a query without an order returns rows in table order, and fund ids
  of the refresh are positions in a table that nothing deletes from.
- The fund query and its limit in the backfill: a job lists its funds, and their histories do not change between calls.
- Rows without a date: every writer modelled here sets one, so the ranking's assertion on dates does not fail.
- Stored metric values are not rounded to ten decimals.
- A crash inside the database's own commit: a commit happens or it does not.
- The retry wrapper of the refresh: its last answer, or the absence of one, is a parameter of the call.
- The scheduler, several processes, the routes and pages, multi-asset refresh, portfolio plans, the provider chain and
  currency conversion: plumbing or simpler repeats.
- The fairness of the history selection over many refreshes: the code does not promise it.
