# Signal engine of easy-money-bot, in Dafny

easy-money-bot watches the daily price bars of traded items and reports buy and
sell signals. This project models the signal engine and proves properties of it:

- the indicator definitions: Bollinger bands, the exponential averages of the
  Vegas tunnel, and bar preparation;
- the five strategies (Bollinger, Vegas, RSI, MACD, CsMa), each with its
  per-bar rule and its `detect` pass in `newest` and `full` mode;
- the strategy center, which prepares the bars once and runs the configured
  strategies in order;
- the two backtesters, each a flat/long state machine with a cooldown, plus
  their trade statistics;
- four small utilities: kline cleaning, filename sanitising, the signal store
  with markdown-safe names, and the console table formatter.

One Dafny module per source file:

| module | source |
|---|---|
| `Indicators` | `src/analysis/indicators.py` |
| `BollingerStrategy`, `VegasStrategy`, `RsiStrategy`, `MacdStrategy`, `CsMaStrategy` | `src/strategy/*Strategy.py` |
| `StrategyCenter` | `src/strategy/StrategyCenter.py` |
| `Backtest` | `src/analysis/backtest.py` |
| `DataCleaner` | `src/analysis/data_cleaner.py` |
| `SignalSummary` | `src/analysis/signal_summary.py` |
| `Formatter` | `src/utils/formatter.py` |
| `FileUtils` | `src/utils/file_utils.py` |
| `Common`, `Text`, `Market` | shared helpers (see below) |

The shared modules hold the following:

- `Common`: `Option`; `Compact`, which stands for pandas `dropna` over a series
  of optional values; sums, minimum and maximum.
- `Text`: Python whitespace, `str.join`, `str.lower` and decimal notation of
  integers.
- `Market`: the `Bar` record `[time, open, close, high, low, volume, amount]`,
  raw input fields, signals, and sorting by timestamp. A raw field is `Num`
  (any value that parses as a number, with the way it is written: a Python
  number, text spelling an integer, or text with a fraction or exponent),
  `Missing` (`None`) or `Text` (text that does not parse as a number).
  `pd.to_numeric` reads every `Num`; `astype(int)` on the time column rejects
  text with a fraction or exponent.

Modelling conventions:

- Prices are real numbers.
- A value pandas leaves as NaN (the warm-up of a rolling window, a missing
  indicator value) is `None`. Every comparison with it is false, as in Python.
- Timestamps are integer seconds.
- The rolling sample standard deviation is a given series, tied to the sample
  variance by the predicate `Indicators.IsRollingStd`.
- The RSI, MACD and CsMa indicator calculators are not defined in
  `src/analysis/indicators.py`, so their series are inputs.
- Loops of the source are methods with loop invariants. Each is proved equal to
  a specification function, and the properties are lemmas about those functions.
- The signal store is a class whose `signals` map is changed in place.

Behaviour of the code worth knowing when reading the model:

- Vegas strategy. The code buys when `ema1 > ema2` and `ema3 <= close <= ema2`,
  and lets `close < ema1` override that with a sell. Any such buy bar therefore
  also meets the sell rule, so the detector never emits a buy
  (`VegasStrategy.BuyRuleImpliesSell`, `VegasStrategy.NeverBuys`).
- CsMa strategy. Both buy rules sit inside the `ma56 > ma112` trend filter,
  including the price-above-MA112 rule.
- Newest versus full mode. Newest mode only agrees with full mode's last signal
  under conditions:
  - for MACD and CsMa, both lines must be defined on the last two bars (newest
    mode compares the raw last two entries; full mode compares the last two
    rows left after dropping undefined ones);
  - for Bollinger and RSI, the equivalence holds as stated in `ModesAgree`.
- Backtesters. They use their own entry and exit rules (`detect_signals` in
  `backtest.py`), not the strategies' full-mode signals.
- Bollinger backtester. `run_backtest` has no exception handler, so a zero buy
  price makes the profit-percentage division raise. The model returns `Failed`.
  The Vegas backtester catches the exception and returns no trades with
  all-zero statistics.
- Bar preparation. It neither removes duplicate timestamps nor fills missing
  values:
  - `prepare_dataframe` fails (empty frame) on a non-numeric field;
  - only the strategy center's `_prepare_dataframe` coerces non-numeric prices
    to 0.

## Model

| member | source | states |
|---|---|---|
| Indicators.WindowAt | src/analysis/indicators.py:51 | the window at bar i holds exactly the last p closes, ending at i |
| Indicators.RollingMean | src/analysis/indicators.py:51 | the rolling mean has one entry per close |
| Indicators.BollingerBands | src/analysis/indicators.py:39-63 | the three bands line up with the closes; a misaligned std (a failing computation) gives three empty series; upper or lower defined implies middle defined |
| Indicators.BollingerWarmUp | src/analysis/indicators.py:51-58 | middle is defined exactly from index p-1 on and is then the mean of the last p closes; upper and lower are defined exactly there when p >= 2 |
| Indicators.BollingerSymmetric | src/analysis/indicators.py:57-58 | upper - middle == middle - lower == k * std at every bar where the bands exist |
| Indicators.BollingerOrdered | src/analysis/indicators.py:57-58 | with k >= 0 and a genuine std, lower <= middle <= upper |
| Indicators.MiddleWithinWindow | src/analysis/indicators.py:51 | the middle band lies between the smallest and largest close of its window |
| Indicators.ConstantWindowBands | src/analysis/indicators.py:51-58 | a window of equal closes c has std 0 and all three bands equal to c |
| Indicators.Alpha | src/analysis/indicators.py:77-79 | the smoothing factor 2/(span+1) lies in (0, 1] |
| Indicators.Ema | src/analysis/indicators.py:77-79 | the average is defined at every index and starts at the first close |
| Indicators.EmaPrefix | src/analysis/indicators.py:77-79 | each average depends only on the closes seen so far |
| Indicators.EmaStep | src/analysis/indicators.py:77-79 | ema[t] == ema[t-1] + a * (close[t] - ema[t-1]) for every t > 0 |
| Indicators.StepBetween | src/analysis/indicators.py:77-79 | one smoothing step stays between any bounds on the old average and the new close |
| Indicators.EmaBounded | src/analysis/indicators.py:77-79 | an average stays within any bounds that hold for every close seen so far |
| Indicators.EmaWithinRange | src/analysis/indicators.py:77-79 | each average lies between the minimum and the maximum close seen so far |
| Indicators.VegasTunnel | src/analysis/indicators.py:65-84 | valid spans give three averages as long as the closes; a span below one (pandas raises) gives three empty series |
| Indicators.ParseTime | src/analysis/indicators.py:171 | `astype(int)` succeeds exactly on a Python number or text spelling an integer, giving the value truncated toward zero; text with a fraction or exponent fails |
| Indicators.ParseRowStrict | src/analysis/indicators.py:168-178 | a row parses exactly when all seven fields are numbers and the time is one `astype(int)` accepts, read in the order time, open, close, high, low, volume, amount |
| Indicators.ParsedRows | src/analysis/indicators.py:168-178 | one parse outcome per input row |
| Indicators.PrepareFrame | src/analysis/indicators.py:156-186 | the result is sorted ascending by time and never longer than the input |
| Indicators.PrepareFrameRejects | src/analysis/indicators.py:178-186 | one non-numeric field anywhere, or a time written as text with a fraction or exponent, makes the result the empty frame |
| Indicators.PrepareFrameAccepts | src/analysis/indicators.py:166-183 | on all-numeric seven-field rows whose times `astype(int)` accepts, the result is a permutation of the rows read as bars, one bar per row |
| Indicators.NumericRows | src/analysis/indicators.py:168-178 | row j becomes the bar of its seven numbers, time truncated to an integer |
| Indicators.NumericRowParses | src/analysis/indicators.py:168-178 | a full numeric row with an accepted time parses to the bar of its numbers |
| Market.Trunc | src/analysis/indicators.py:171 | `astype(int)` truncates toward zero, for both signs |
| Market.PadRow | src/analysis/indicators.py:168 | a short row is widened to seven fields by appending missing values, keeping its own fields |
| Market.SortByTime | src/analysis/indicators.py:181 | the bars come out sorted ascending by time, as a permutation of the input |
| Market.InsertSorted | src/analysis/indicators.py:181 | inserting a bar into a time-sorted sequence keeps it sorted |
| Market.InsertAdds | src/analysis/indicators.py:181 | inserting adds exactly the new bar to the multiset of bars |
| Market.Closes | src/analysis/indicators.py:51 | the close column, bar by bar |
| BollingerStrategy.CheckSignal | src/strategy/BollingerStrategy.py:110-139 | buy iff the low touches the lower threshold; sell iff the high touches the upper threshold and buy does not hold; no signal iff neither; details record close, high, low and the three bands |
| BollingerStrategy.SignalAt | src/strategy/BollingerStrategy.py:83-100 | a bar signals only with defined bands, stamped with its own time and close, with the check's verdict |
| BollingerStrategy.PerBar | src/strategy/BollingerStrategy.py:83-100 | one outcome per bar |
| BollingerStrategy.Detect | src/strategy/BollingerStrategy.py:38-108 | the detector computes the specification `Signals` for each mode |
| BollingerStrategy.ScanAll | src/strategy/BollingerStrategy.py:81-100 | the full-mode loop collects, in bar order, exactly the per-bar signals that exist |
| BollingerStrategy.Guards | src/strategy/BollingerStrategy.py:51-58 | fewer bars than the period, or upper or lower undefined everywhere, gives no signals |
| BollingerStrategy.PeriodOneIsSilent | src/strategy/BollingerStrategy.py:51-58 | with a one-bar window the bands never exist, so no mode signals |
| BollingerStrategy.UnknownMode | src/strategy/BollingerStrategy.py:102-103 | an unknown mode gives no signals |
| BollingerStrategy.NewestIsLastBar | src/strategy/BollingerStrategy.py:63-80 | newest mode: at most one signal, at the last bar, priced at its close; none when the last bands are undefined |
| BollingerStrategy.FullInBarOrder | src/strategy/BollingerStrategy.py:81-100 | full mode: the m-th signal is the check of the m-th signalling bar, bars strictly increase, each has defined bands, and every bar whose check fires is present |
| BollingerStrategy.ModesAgree | src/strategy/BollingerStrategy.py:63-100 | newest mode's signal is full mode's last signal; without one, the last bar adds nothing to full mode |
| VegasStrategy.Decide | src/strategy/VegasStrategy.py:66-85 | sell iff the close is below the fast average; buy iff uptrend and close in the tunnel and not sell; none otherwise |
| VegasStrategy.Signals | src/strategy/VegasStrategy.py:34-105 | at most one signal |
| VegasStrategy.Guards | src/strategy/VegasStrategy.py:47-55 | fewer bars than the slowest span, or a span below one, gives no signal |
| VegasStrategy.SignalIsLastBar | src/strategy/VegasStrategy.py:57-101 | a signal is the last bar's, priced at its close, with the last three averages and `is_uptrend == (ema1 > ema2)` |
| VegasStrategy.BuyRuleImpliesSell | src/strategy/VegasStrategy.py:70-85 | the buy condition implies close <= ema2 < ema1, so the sell rule fires and wins |
| VegasStrategy.NeverBuys | src/strategy/VegasStrategy.py:66-102 | every signal of the detector is a sell |
| VegasStrategy.SignalIffBelowFast | src/strategy/VegasStrategy.py:81-102 | past the guards there is a signal exactly when the last close is below the last fast average |
| RsiStrategy.CheckSignal | src/strategy/RsiStrategy.py:108-114 | buy iff rsi < oversold; sell iff rsi > overbought and not buy; none iff oversold <= rsi <= overbought |
| RsiStrategy.SignalAt | src/strategy/RsiStrategy.py:84-98 | a bar signals only with a defined RSI that meets a rule, with the signal built from that bar and value |
| RsiStrategy.PerBar | src/strategy/RsiStrategy.py:84-98 | one outcome per bar |
| RsiStrategy.Detect | src/strategy/RsiStrategy.py:39-103 | the detector computes the specification `Signals` for each mode |
| RsiStrategy.ScanAll | src/strategy/RsiStrategy.py:82-98 | the full-mode loop collects, in bar order, exactly the per-bar signals that exist |
| RsiStrategy.Guards | src/strategy/RsiStrategy.py:53-60 | fewer bars than the period, an all-undefined RSI or an unknown mode gives no signals |
| RsiStrategy.OnThresholdIsSilent | src/strategy/RsiStrategy.py:110-114 | with ordered thresholds, a value exactly on a threshold gives no signal |
| RsiStrategy.RulesExclusive | src/strategy/RsiStrategy.py:110-114 | with oversold <= overbought the two rules never both hold |
| RsiStrategy.ThresholdMatchesKind | src/strategy/RsiStrategy.py:116-126 | a buy records the oversold threshold and a value below it; a sell the overbought threshold and a value above it |
| RsiStrategy.NewestIsLastBar | src/strategy/RsiStrategy.py:65-80 | newest mode: at most one signal, at the last bar; none when the last RSI is undefined |
| RsiStrategy.FullInBarOrder | src/strategy/RsiStrategy.py:82-98 | full mode: one signal per signalling bar with a defined RSI, in strictly increasing bar order, and every such bar is present |
| RsiStrategy.ModesAgree | src/strategy/RsiStrategy.py:65-98 | newest mode's signal is full mode's last signal; without one, the last bar adds nothing to full mode |
| MacdStrategy.CheckCross | src/strategy/MacdStrategy.py:117-136 | buy iff golden cross (prev macd < prev signal and curr macd > curr signal); sell iff death cross; details record the cross type and current values |
| MacdStrategy.PairSignal | src/strategy/MacdStrategy.py:95-107 | a pair's signal is stamped with the later row's time and close |
| Common.Pairwise | src/strategy/MacdStrategy.py:91-107 | entry j combines rows j and j+1, so the first row is never a signal's current row; both the MACD and the CsMa full-mode loops (`src/strategy/CsMaStrategy.py` lines 67-78) compare consecutive merged rows this way |
| MacdStrategy.NewestSignals | src/strategy/MacdStrategy.py:60-80 | newest mode gives at most one signal |
| MacdStrategy.Detect | src/strategy/MacdStrategy.py:33-115 | the detector computes the specification `Signals` for each mode |
| MacdStrategy.ScanPairs | src/strategy/MacdStrategy.py:91-107 | the loop from the second row collects exactly the pair signals that exist, in order |
| MacdStrategy.CrossesExclusive | src/strategy/MacdStrategy.py:121-136 | golden and death crosses exclude each other; equal lines at either bar give no signal |
| MacdStrategy.Guards | src/strategy/MacdStrategy.py:47-55 | fewer than slow + signal bars, an all-undefined line or an unknown mode gives no signals |
| MacdStrategy.NewestIsLastBar | src/strategy/MacdStrategy.py:60-80 | newest mode: at most one signal, at the last bar; none unless each line has two defined values |
| MacdStrategy.FullComparesConsecutiveRows | src/strategy/MacdStrategy.py:82-107 | full mode: the m-th signal is the cross check of consecutive merged rows, stamped with the later one, in increasing order, and every firing pair is present |
| MacdStrategy.ModesAgree | src/strategy/MacdStrategy.py:60-107 | with both lines defined on the last two bars, newest mode is full mode's verdict on its last pair |
| MacdStrategy.MergedAllDefined | src/strategy/MacdStrategy.py:85-88 | with both lines defined everywhere, the merged frame keeps every bar with its values |
| MacdStrategy.SingleCrossFull | src/strategy/MacdStrategy.py:82-136 | macd stepping from -1 to +1 at bar k over a zero signal line gives exactly one buy, at bar k |
| MacdStrategy.SingleCrossNewest | src/strategy/MacdStrategy.py:60-80 | with the step on the last bar, newest mode reports that one buy |
| CsMaStrategy.CheckSignal | src/strategy/CsMaStrategy.py:84-105 | sell iff close crosses below ma7; buy iff not sell, ma56 > ma112 and a golden cross or a cross above ma112; details name the rule that fired, the golden cross first |
| CsMaStrategy.PairSignal | src/strategy/CsMaStrategy.py:67-78 | a pair's signal is stamped with the later row's time and close |
| CsMaStrategy.NewestSignals | src/strategy/CsMaStrategy.py:48-60 | newest mode gives at most one signal |
| CsMaStrategy.Detect | src/strategy/CsMaStrategy.py:33-82 | the detector computes the specification `Signals` for each mode |
| CsMaStrategy.ScanPairs | src/strategy/CsMaStrategy.py:67-78 | the loop from the second merged row collects exactly the pair signals that exist, in order |
| CsMaStrategy.SellWins | src/strategy/CsMaStrategy.py:88-91 | a close crossing below ma7 is a sell, whatever the buy rules say |
| CsMaStrategy.NoBuyAgainstTrend | src/strategy/CsMaStrategy.py:93-105 | without ma56 > ma112 there is no buy |
| CsMaStrategy.Guards | src/strategy/CsMaStrategy.py:35-43 | fewer than slow bars, an all-undefined average or an unknown mode gives no signals |
| CsMaStrategy.NewestIsLastBar | src/strategy/CsMaStrategy.py:48-60 | newest mode: at most one signal, at the last bar; none with fewer than two bars or an undefined value on either of the last two |
| CsMaStrategy.FullComparesConsecutiveRows | src/strategy/CsMaStrategy.py:62-78 | full mode: the m-th signal is the check of consecutive merged rows, stamped with the later one, in increasing order, and every firing pair is present |
| CsMaStrategy.MergedRowsAreBars | src/strategy/CsMaStrategy.py:63-65 | every merged row carries the close of one of the input bars |
| CsMaStrategy.ModesAgree | src/strategy/CsMaStrategy.py:48-78 | with the last two bars fully defined, newest mode is full mode's verdict on its last pair |
| StrategyCenter.Prepare | src/strategy/StrategyCenter.py:47-68 | the prepared bars are sorted ascending by time and never outnumber the rows |
| StrategyCenter.BadTimeFails | src/strategy/StrategyCenter.py:54-68 | a time `astype(int)` rejects (not a number, or text with a fraction or exponent) makes preparation give the empty frame |
| StrategyCenter.PrepareCoerces | src/strategy/StrategyCenter.py:59-64 | with times `astype(int)` accepts, every row becomes one bar, prices coerced to their number or 0, as a permutation of the rows |
| StrategyCenter.CoercedRows | src/strategy/StrategyCenter.py:59-63 | row j becomes its coerced bar |
| StrategyCenter.FullRowCoerces | src/strategy/StrategyCenter.py:55-63 | a full row with an accepted time parses to its coerced bar |
| StrategyCenter.Dispatch | src/strategy/StrategyCenter.py:89-97 | a strategy outcome exists exactly for the five registered names |
| StrategyCenter.RunStrategies | src/strategy/StrategyCenter.py:70-104 | the loop computes the specification `Run` |
| StrategyCenter.ContributionOfOutcome | src/strategy/StrategyCenter.py:94-101 | a name adds the signals of a strategy that ran and nothing otherwise |
| StrategyCenter.NothingToRun | src/strategy/StrategyCenter.py:75-83 | no configured name, no rows or an empty prepared frame gives no signals |
| StrategyCenter.CollectAppend | src/strategy/StrategyCenter.py:88-99 | the result for concatenated configurations is the concatenation of the results, in order |
| StrategyCenter.CollectStep | src/strategy/StrategyCenter.py:88-99 | one more configured name appends its contribution |
| StrategyCenter.SkippedContributesNothing | src/strategy/StrategyCenter.py:89-101 | an unregistered name or a raising strategy adds nothing |
| StrategyCenter.SkipsUnknownAndFailing | src/strategy/StrategyCenter.py:88-101 | such a name is skipped and the names after it still run |
| StrategyCenter.DuplicatesRunAgain | src/strategy/StrategyCenter.py:88-99 | a name configured twice contributes twice |
| StrategyCenter.ContributionIsNewest | src/strategy/StrategyCenter.py:97 | each strategy runs in newest mode: at most one signal, at the last bar |
| StrategyCenter.OkIsNewest | src/strategy/StrategyCenter.py:97 | the signals of a strategy that ran come from the last bar, at most one |
| StrategyCenter.RunIsNewest | src/strategy/StrategyCenter.py:88-99 | the whole run gives at most one signal per configured name, all at the last bar |
| Backtest.Days | src/analysis/backtest.py:125-128 | whole days between two times, rounded down |
| Backtest.BodyLow | src/analysis/backtest.py:111 | the low end of the candle body: the smaller of open and close |
| Backtest.DetectSignals | src/analysis/backtest.py:77-162 | buy iff flat and the entry rule holds, priced at the body low; sell iff long, out of cooldown and the exit rule holds, priced by the exit rule |
| Backtest.CloseTrade | src/analysis/backtest.py:206-215 | profit == sell - buy and profit percent * buy == profit * 100 |
| Backtest.StartIndex | src/analysis/backtest.py:180-182 | the loop starts at max(0, total - lookback) |
| Backtest.Wins | src/analysis/backtest.py:256 | the win count never exceeds the trade count |
| Backtest.WinsCountPositive | src/analysis/backtest.py:256 | the win count is the number of trades with positive profit |
| Backtest.Profits | src/analysis/backtest.py:260 | the profit of each trade, in order |
| Backtest.ProfitPercents | src/analysis/backtest.py:261 | the profit percentage of each trade, in order |
| Backtest.HoldDays | src/analysis/backtest.py:268 | the whole days each trade was held, in order |
| Backtest.PercentOfCount | src/analysis/backtest.py:257 | a count out of a total, as a percentage, lies in [0, 100] |
| Backtest.CalculateStats | src/analysis/backtest.py:233-279 | no trades give all-zero stats; otherwise the count, the win rate as the percentage of trades with positive profit (within [0, 100]), average return and average hold as means, best and worst return attained by some trade and bounding every trade and the average, and total profit the sum |
| Backtest.AverageHoldAtLeast | src/analysis/backtest.py:267-269 | when every trade was held at least c days, so was the average |
| Backtest.RunBacktest | src/analysis/backtest.py:164-231 | the backtest loop computes the specification `Backtest` |
| Backtest.FailureAbsorbs | src/analysis/backtest.py:164-231 | once a run has failed it stays failed |
| Backtest.FailedRun | src/analysis/backtest.py:462-538 | a failure at any row ends the Bollinger run in failure and the Vegas run with no trades and zero stats |
| Backtest.CompletedRun | src/analysis/backtest.py:225-231 | a run that never fails completes with its trades and their stats |
| Backtest.StepKeepsInv | src/analysis/backtest.py:185-218 | one step keeps the invariant: long iff an open trade iff a buy date; every trade valid, chronological and after the start |
| Backtest.AfterKeepsInv | src/analysis/backtest.py:176-218 | the invariant holds after any number of steps |
| Backtest.BacktestTradesValid | src/analysis/backtest.py:176-231 | completed trades are chronological and non-overlapping, each from the visited rows, bought on an entry row at its body low and sold on a later exit row after at least the cooldown |
| Backtest.FailureNeedsZeroBuyPrice | src/analysis/backtest.py:206-215 | without a zero body low, or for the Vegas backtester, every run completes |
| Backtest.NeverFails | src/analysis/backtest.py:206-215 | with no zero body low no run ever fails |
| Backtest.BollingerFullRows | src/analysis/backtest.py:55-61 | the bands are attached to every prepared bar |
| Backtest.VegasFullRows | src/analysis/backtest.py:358-364 | the three averages are attached to every prepared bar |
| Backtest.Tail | src/analysis/backtest.py:68 | `iloc[start:]` keeps the rows from start on, none past the end |
| Backtest.TailWindow | src/analysis/backtest.py:63-68 | the window is the last `keep` rows, or everything when fewer, or nothing for a negative `keep` |
| Backtest.BollingerKeepsHistory | src/analysis/backtest.py:39-75 | the Bollinger window is the last lookback rows of the frame whose bands were computed on the full history |
| Backtest.BollingerPrepareIsTail | src/analysis/backtest.py:51-71 | the Bollinger frame is the full-history frame from max(0, total - lookback) on |
| Backtest.VegasKeepsHistory | src/analysis/backtest.py:342-375 | the Vegas window keeps warmup rows more than the lookback, with averages of the full history |
| Backtest.VegasPrepareIsTail | src/analysis/backtest.py:354-371 | the Vegas frame is the full-history frame from max(0, total - lookback - warmup) on |
| DataCleaner.Values | src/analysis/data_cleaner.py:44 | `list(item.values())`: the values in entry order |
| DataCleaner.CleanItem | src/analysis/data_cleaner.py:36-49 | an item is kept iff it is a list or dict without a removed None; a dict becomes its values and a list passes through |
| DataCleaner.PerItem | src/analysis/data_cleaner.py:34-49 | one outcome per item |
| DataCleaner.CleanKlineData | src/analysis/data_cleaner.py:17-51 | the cleaning loop computes the specification `CleanKline` |
| DataCleaner.EmptyInput | src/analysis/data_cleaner.py:28-30 | empty input gives no rows |
| DataCleaner.NoneRemoved | src/analysis/data_cleaner.py:36-40 | with remove-none no output row holds a None |
| DataCleaner.OrderKept | src/analysis/data_cleaner.py:32-51 | the output is the kept items in input order, no more rows than items, every accepted item present |
| DataCleaner.KeepsEveryItem | src/analysis/data_cleaner.py:36-46 | without remove-none every list or dict is kept, one row per item |
| DataCleaner.OthersDropped | src/analysis/data_cleaner.py:47-49 | items that are neither lists nor dicts give nothing |
| DataCleaner.CleanMarketData | src/analysis/data_cleaner.py:54-75 | a non-dict gives `{}`; otherwise the same keys, each value cleaned |
| FileUtils.ReplaceInvalid | src/utils/file_utils.py:21-23 | each forbidden character becomes `_`, all others stay |
| FileUtils.DropWhile | src/utils/file_utils.py:25 | the suffix after the longest prefix satisfying the predicate |
| FileUtils.DropSeparators | src/utils/file_utils.py:25 | the suffix after a leading run of whitespace and `_` |
| FileUtils.Collapse | src/utils/file_utils.py:25 | empty iff the input is; a leading separator becomes `_` |
| FileUtils.TrimStart | src/utils/file_utils.py:27 | the suffix after the leading `_` |
| FileUtils.TrimEnd | src/utils/file_utils.py:27 | the prefix before the trailing `_` |
| FileUtils.KeptCollapse | src/utils/file_utils.py:25 | collapsing keeps every non-separator character in order |
| FileUtils.CollapseShape | src/utils/file_utils.py:25 | collapsing leaves only `_` and non-separator input characters, never two `_` in a row |
| FileUtils.StripClean | src/utils/file_utils.py:27 | stripping leaves no `_` at either end and keeps the other properties |
| FileUtils.CleanFilenameIsClean | src/utils/file_utils.py:21-27 | no forbidden character, no whitespace, no `__`, no `_` at either end |
| FileUtils.KeepsOtherCharacters | src/utils/file_utils.py:23-27 | every other character is kept, in order |
| FileUtils.Idempotent | src/utils/file_utils.py:21-28 | cleaning a cleaned name changes nothing |
| SignalSummary.SignalStore.constructor | src/analysis/signal_summary.py:20-25 | a new store is empty |
| SignalSummary.SignalStore.AddSignal | src/analysis/signal_summary.py:27-56 | the record of the id is replaced by the new one with the three band values and the other ids are unchanged; a missing band key raises before storing, so nothing changes |
| SignalSummary.SignalStore.ClearSignals | src/analysis/signal_summary.py:133-135 | the store is empty afterwards |
| SignalSummary.SignalStore.SaveToMarkdown | src/analysis/signal_summary.py:79-131 | an empty store gives no path; otherwise the path of the new file, or none when writing fails |
| SignalSummary.ReplaceChar | src/analysis/signal_summary.py:74 | every occurrence of the character becomes a space, all else stays |
| SignalSummary.Blanked | src/analysis/signal_summary.py:71-74 | every special character becomes a space, all else stays |
| SignalSummary.DropSpaces | src/analysis/signal_summary.py:76 | the suffix after leading whitespace |
| SignalSummary.TakeWord | src/analysis/signal_summary.py:76 | the longest whitespace-free prefix, ended by whitespace or the text's end |
| SignalSummary.WordsShape | src/analysis/signal_summary.py:76 | `split()` gives non-empty words without whitespace |
| SignalSummary.CleanItemName | src/analysis/signal_summary.py:59-77 | the cleaning loop computes the specification `CleanName` |
| SignalSummary.CleanNameHasNoSpecial | src/analysis/signal_summary.py:71-76 | the cleaned name holds none of the fifteen special characters |
| SignalSummary.CleanNameSingleSpaced | src/analysis/signal_summary.py:76 | no surrounding whitespace, words separated by single spaces |
| SignalSummary.JoinWords | src/analysis/signal_summary.py:76 | splitting a single-spaced text and rejoining it with spaces gives it back |
| SignalSummary.CleanNameIdempotent | src/analysis/signal_summary.py:71-77 | cleaning a cleaned name changes nothing |
| Text.Lower | src/utils/formatter.py:6 | text without U+0130 is lower-cased character by character (ASCII capitals and the Kelvin sign to small letters) and keeps its length; no text gets shorter (U+0130 becomes two characters) |
| Text.LowerAppend | src/utils/formatter.py:6 | lower-casing distributes over concatenation |
| Text.Repeat | src/utils/formatter.py:66 | `c * n` is n copies of c |
| Formatter.Shorthand | src/utils/formatter.py:4-16 | the first of vegas, macd, bollinger, rsi, csma in the lower-cased name picks the shorthand, both directions; otherwise `Unknown` |
| Formatter.ShorthandOrderSorted | src/utils/formatter.py:47 | the possible shorthands in ascending order |
| Formatter.BollingerShorthand | src/utils/formatter.py:4-16 | a Bollinger strategy's name maps to `Boll` |
| Formatter.VegasShorthand | src/utils/formatter.py:4-16 | a Vegas strategy's name maps to `Vegas` |
| Formatter.RsiShorthand | src/utils/formatter.py:4-16 | an RSI strategy's name maps to `RSI` |
| Formatter.DottedCapitalIShorthand | src/utils/formatter.py:12-13 | a name `RSİ` followed by a numeric tail (such as `RSİ_35_75`) maps to `RSI`, because U+0130 lower-cases to `i` and a combining dot |
| Formatter.MacdShorthand | src/utils/formatter.py:4-16 | a MACD strategy's name maps to `MACD` |
| Formatter.CsMaShorthand | src/utils/formatter.py:4-16 | a CsMa strategy's name maps to `CsMa` |
| Formatter.StrWidth | src/utils/formatter.py:53-57 | the width loop computes `Width`: 2 per CJK ideograph, 1 otherwise |
| Formatter.WidthAppend | src/utils/formatter.py:53-57 | width adds up over concatenation |
| Formatter.WidthBounds | src/utils/formatter.py:53-57 | length <= width <= 2 * length, with width == length iff no wide character |
| Formatter.PadCell | src/utils/formatter.py:65 | the cell followed by spaces, exactly as wide as the column when it fits, unchanged otherwise |
| Formatter.HeaderWidths | src/utils/formatter.py:59 | the width of each header cell |
| Formatter.Widen | src/utils/formatter.py:60-62 | each width grows to cover the row's cell and equals the old width or that cell's |
| Formatter.ColumnWidths | src/utils/formatter.py:59-62 | each column is as wide as its widest header or body cell, and that width is attained |
| Formatter.ComputeColumnWidths | src/utils/formatter.py:59-62 | the nested width loop computes `ColumnWidths` |
| Formatter.PadRow | src/utils/formatter.py:65 | each cell padded to its column |
| Formatter.PaddedCellsFillColumns | src/utils/formatter.py:65-71 | every padded header and row cell is exactly as wide as its column |
| Formatter.Dashes | src/utils/formatter.py:66 | a run of `-` per column width |
| Formatter.SeparatorWidth | src/utils/formatter.py:66 | the separator is the width sum plus three per `-+-` |
| Formatter.LineWidth | src/utils/formatter.py:65 | a padded line is the width sum plus three per cell separator |
| Formatter.LineAsWideAsSeparator | src/utils/formatter.py:65-71 | a padded line is exactly as wide as the separator |
| Formatter.TableAligned | src/utils/formatter.py:59-72 | the header and every row line are as wide as the separator |
| Formatter.TableShape | src/utils/formatter.py:64-72 | a table has its head lines and one line per row, every line after the title as wide as the separator |
| Formatter.Prices | src/utils/formatter.py:34 | the prices in signal order |
| Formatter.Aggregate | src/utils/formatter.py:27-34 | at most one entry per item; `AggregateKeepsItems` pins down the entries |
| Formatter.AggregateKeepsItems | src/utils/formatter.py:27-37 | the m-th entry is the m-th item with signals, in item order, with its name, its prices in signal order and its shorthands; every item with signals has an entry; no entries iff no item has signals |
| Formatter.InOrder | src/utils/formatter.py:47 | exactly the members of the set that occur in the order |
| Formatter.InOrderSorted | src/utils/formatter.py:47 | taken from an ascending order the members come out ascending |
| Formatter.StrategyCellSorted | src/utils/formatter.py:47 | the strategy cell lists each shorthand of the item once, in ascending order |
| Formatter.RowCells | src/utils/formatter.py:45-50 | three cells per item |
| Formatter.Rows | src/utils/formatter.py:44-50 | one row per aggregated item, in order |
| Formatter.DataLines | src/utils/formatter.py:70-72 | one padded line per row |
| Formatter.EmptyGroup | src/utils/formatter.py:28-37 | a signal type whose items have no signals prints nothing |
| Formatter.GroupShape | src/utils/formatter.py:36-72 | otherwise a title, header, separator and one line per item, all table lines as wide as the separator |
| Formatter.EmptyFavoriteIsBanner | src/utils/formatter.py:22-37 | a favourites list without signals prints only its banner |
| Common.Compact | src/strategy/MacdStrategy.py:88 | `dropna` never lengthens a series |
| Common.CompactIndexed | src/strategy/MacdStrategy.py:88 | `dropna` keeps exactly the present entries, in order |
| Common.CompactEmpty | src/strategy/BollingerStrategy.py:57 | nothing is kept iff every entry is missing (`isna().all()`) |
| Common.MeanBetweenMinMax | src/analysis/backtest.py:263-265 | a mean lies between the minimum and maximum |
| Common.Max | src/analysis/backtest.py:264 | the maximum bounds every element and is one of them |
| Common.Min | src/analysis/backtest.py:265 | the minimum bounds every element and is one of them |

## Left out

- Network, storage, notification, charting and the command line are not part of this model: the crawlers, `src/storage/database.py`, `src/notification/ntfy.py`, the chart modules and `main.py`. Neither are the plotting helpers of `indicators.py` or the stub `src/analysis/backtester.py`.
- Settings are parameters: periods, spans, tolerances, lookback, cooldown and the configured strategy names.
- The sample standard deviation is abstract, since it needs `sqrt`. It is an input series; `IsRollingStd` ties it to the rolling sample variance.
- The RSI, MACD and CsMa calculators are inputs, since the indicators module does not define them. A missing calculator, or a series not aligned with the bars, makes the strategy center treat that strategy as one that raises.
- Floating point is modelled with exact reals. `round(..., 2)` in signal details is not modelled; details carry the unrounded values.
- Timestamps are integer seconds. `strftime` and `f"{p:.2f}"` are not modelled: the table formatter takes the price text as a function parameter, and signals carry integer times.
- Text.Lower: follows `str.lower` on ASCII letters, on U+0130 (to `i` and U+0307) and on the Kelvin sign (to `k`). These are the only characters whose lower case holds an ASCII letter. Every other character is left as it is, while Python maps some of them to other non-ASCII letters. A pattern the shorthand looks for is ASCII and never matches such a letter, so `Formatter.Shorthand` gives the same answer either way.
- Market.SortByTime: pandas `sort_index` uses an unstable quicksort, so the model claims only a time-sorted permutation. The order of equal timestamps is not modelled.
- Indicators.PrepareFrame and StrategyCenter.Prepare: accept every integer timestamp. In the source, a timestamp outside the range pandas can convert (64-bit nanoseconds, roughly the years 1677 to 2262) makes the conversion raise, and the handler returns the empty frame.
- Indicators.PrepareFrame: a missing (`None`) numeric field is treated as a failure. pandas would instead read it as NaN, and the model has no NaN prices.
- Indicators.RollingMean: the window type excludes a period below one bar, so two source cases are not modelled. pandas accepts a window of 0 and makes every band NaN, so the Bollinger strategy returns no signals and the backtester never enters. A negative window makes pandas raise `ValueError`, which `calculate_bollinger_bands` catches, returning empty bands.
- DataCleaner.CleanMarketData: states the result as a map. The insertion order of the Python dict is not modelled.
- SignalSummary.SignalStore.SaveToMarkdown: the markdown file's content, the clock-derived file name and the write itself are not modelled. The timestamp text and the write's success are parameters.
- `os.path.join` is modelled as joining with `/`.
- Formatter.Aggregate: assumes distinct item names, as the keys of the Python dict are.
- Logging and the broad `except` blocks are modelled only through their observable result, which is an empty frame, no signals, or zero stats.
- Concurrency: none in the source.
