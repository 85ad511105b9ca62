/** The two backtesters of `analysis/backtest.py`: a single long position
    opened on an entry rule, closed on an exit rule once a cooldown has passed,
    with the completed trades summarised into statistics. */
module Backtest {
  import opened Common
  import opened Market
  import Indicators

  const SecondsPerDay: int := 86400

  /** `(current_date - buy_date).days` for times in seconds: whole days,
      rounded down (Dafny's `/` on a positive divisor floors, as Python does). */
  function Days(t: int, tb: int): (d: int)
    ensures d * SecondsPerDay <= t - tb < (d + 1) * SecondsPerDay
  {
    (t - tb) / SecondsPerDay
  }

  /** A backtester's parameters (defaults: 100 / 8 / 0.03 for Bollinger,
      300 / 8 / 0.005 / 169 for Vegas). */
  datatype Backtester =
    | BollingerBacktester(lookback: int, cooldown: int, tolerance: real)
    | VegasBacktester(lookback: int, cooldown: int, tolerance: real, warmup: int)

  /** A prepared row: the bar with the indicator columns that `prepare_data`
      added (undefined where the indicator is NaN). */
  datatype Row =
    | BollingerRow(bar: Bar, middle: Option<real>, upper: Option<real>, lower: Option<real>)
    | VegasRow(bar: Bar, ema1: Option<real>, ema2: Option<real>, ema3: Option<real>)

  /** `min(open, close)`, the low end of the candle body. */
  function BodyLow(b: Bar): (r: real)
    ensures r <= b.open && r <= b.close && (r == b.open || r == b.close)
  {
    if b.close < b.open then b.close else b.open
  }

  /** Comparisons with a possibly-NaN side, false when it is NaN. */
  predicate AtMost(x: real, y: Option<real>)
  {
    y.Some? && x <= y.value
  }

  predicate AtLeast(x: real, y: Option<real>)
  {
    y.Some? && x >= y.value
  }

  predicate Below(x: real, y: Option<real>)
  {
    y.Some? && x < y.value
  }

  predicate Greater(x: Option<real>, y: Option<real>)
  {
    x.Some? && y.Some? && x.value > y.value
  }

  function Scaled(y: Option<real>, f: real): Option<real>
  {
    if y.Some? then Some(y.value * f) else None
  }

  /** The entry rule of each backtester. A row without the expected columns
      makes `detect_signals` fail, and its handler reports no signal. */
  predicate Entry(bt: Backtester, row: Row)
  {
    match bt
    case BollingerBacktester(_, _, tol) =>
      row.BollingerRow?
      && AtMost(BodyLow(row.bar), Scaled(row.lower, 1.0 + tol))
      && row.bar.close > row.bar.open
      && AtMost(row.bar.close, row.middle)
    case VegasBacktester(_, _, tol, _) =>
      row.VegasRow?
      && AtMost(BodyLow(row.bar), Scaled(row.ema3, 1.0 + tol))
      && Greater(row.ema1, row.ema2)
  }

  /** The exit rule: the high reaching the upper band, or for Vegas the low
      breaking below the slow average or the fast average dropping below the
      medium one. */
  predicate Exit(bt: Backtester, row: Row)
  {
    match bt
    case BollingerBacktester(_, _, tol) =>
      row.BollingerRow? && AtLeast(row.bar.high, Scaled(row.upper, 1.0 - tol))
    case VegasBacktester(_, _, tol, _) =>
      row.VegasRow? && (Below(row.bar.low, Scaled(row.ema3, 1.0 - tol)) || Greater(row.ema2, row.ema1))
  }

  /** The sell price: the high for Bollinger, the low for Vegas. */
  function ExitPrice(bt: Backtester, row: Row): real
  {
    if bt.BollingerBacktester? then row.bar.high else row.bar.low
  }

  /** Fewer whole days than the cooldown have passed since the buy. */
  predicate InCooldown(bt: Backtester, t: int, inPosition: bool, buyDate: Option<int>)
  {
    inPosition && buyDate.Some? && Days(t, buyDate.value) < bt.cooldown
  }

  /** The four results of `detect_signals`. */
  datatype Decision = Decision(buy: bool, sell: bool, buyPrice: real, sellPrice: real)

  /** `detect_signals`: a buy is looked for only when flat, a sell only when
      in position and out of cooldown. */
  function DetectSignals(bt: Backtester, row: Row, inPosition: bool, buyDate: Option<int>)
    : (d: Decision)
    ensures d.buy <==> !inPosition && Entry(bt, row)
    ensures d.sell <==> inPosition && !InCooldown(bt, row.bar.time, inPosition, buyDate) && Exit(bt, row)
    ensures d.buy ==> d.buyPrice == BodyLow(row.bar)
    ensures d.sell ==> d.sellPrice == ExitPrice(bt, row)
  {
    var none := Decision(false, false, 0.0, 0.0);
    if !inPosition then
      if Entry(bt, row) then Decision(true, false, BodyLow(row.bar), 0.0) else none
    else if !InCooldown(bt, row.bar.time, inPosition, buyDate) then
      if Exit(bt, row) then Decision(false, true, 0.0, ExitPrice(bt, row)) else none
    else none
  }

  /** An open trade; `buyIndex` is the row it was opened on. */
  datatype OpenTrade = OpenTrade(buyIndex: nat, buyDate: int, buyPrice: real)

  /** A completed trade; the indices are the rows of the buy and of the sell. */
  datatype Trade = Trade(buyIndex: nat, buyDate: int, buyPrice: real,
                         sellIndex: nat, sellDate: int, sellPrice: real,
                         profit: real, profitPercent: real)

  /** Closing a trade: profit is sell minus buy, and the percentage is the
      profit relative to the buy price. */
  function CloseTrade(t: OpenTrade, i: nat, date: int, price: real): (r: Trade)
    requires t.buyPrice != 0.0
    ensures r.buyIndex == t.buyIndex && r.buyDate == t.buyDate && r.buyPrice == t.buyPrice
    ensures r.sellIndex == i && r.sellDate == date && r.sellPrice == price
    ensures r.profit + t.buyPrice == price
    ensures r.profitPercent * t.buyPrice == r.profit * 100.0
  {
    var profit := price - t.buyPrice;
    Trade(t.buyIndex, t.buyDate, t.buyPrice, i, date, price, profit, (profit / t.buyPrice) * 100.0)
  }

  /** The loop variables of `run_backtest`; `failed` records a division by a
      zero buy price. */
  datatype State = State(inPosition: bool, current: Option<OpenTrade>, buyDate: Option<int>,
                         trades: seq<Trade>, failed: bool)

  const Initial: State := State(false, None, None, [], false)

  /** One iteration of the loop, on row `i`. */
  function Step(bt: Backtester, rows: seq<Row>, i: nat, st: State): State
    requires i < |rows|
  {
    if st.failed then st
    else
      var row := rows[i];
      var d := DetectSignals(bt, row, st.inPosition, st.buyDate);
      if d.buy && !st.inPosition then
        State(true, Some(OpenTrade(i, row.bar.time, d.buyPrice)), Some(row.bar.time), st.trades, false)
      else if d.sell && st.inPosition && st.current.Some? then
        if st.current.value.buyPrice == 0.0 then st.(failed := true)
        else State(false, None, None,
                   st.trades + [CloseTrade(st.current.value, i, row.bar.time, d.sellPrice)], false)
      else st
  }

  /** The state after the iterations over rows `start` to `i - 1`. */
  function After(bt: Backtester, rows: seq<Row>, start: nat, i: nat): State
    requires start <= i <= |rows|
    decreases i - start
  {
    if i == start then Initial else Step(bt, rows, i - 1, After(bt, rows, start, i - 1))
  }

  /** `max(0, total - lookback)`; beyond `total` when the lookback is negative. */
  function StartIndex(total: nat, lookback: int): (s: nat)
    ensures s >= total - lookback && s >= 0
    ensures s == 0 || s == total - lookback
  {
    if total - lookback > 0 then total - lookback else 0
  }

  datatype Stats = Stats(totalTrades: nat, winRate: real, avgProfit: real, totalProfit: real,
                         maxProfit: real, maxLoss: real, avgHoldDays: real)

  const ZeroStats: Stats := Stats(0, 0.0, 0.0, 0.0, 0.0, 0.0, 0.0)

  /** The result of `run_backtest`: the trades and their statistics, or an
      exception that escapes (Bollinger has no handler around the loop). */
  datatype Outcome = Completed(trades: seq<Trade>, stats: Stats) | Failed

  function Wins(trades: seq<Trade>): (w: nat)
    ensures w <= |trades|
  {
    if trades == [] then 0
    else Wins(trades[..|trades| - 1]) + (if trades[|trades| - 1].profit > 0.0 then 1 else 0)
  }

  function Profits(trades: seq<Trade>): (r: seq<real>)
    ensures |r| == |trades| && forall k :: 0 <= k < |trades| ==> r[k] == trades[k].profit
  {
    seq(|trades|, k requires 0 <= k < |trades| => trades[k].profit)
  }

  function ProfitPercents(trades: seq<Trade>): (r: seq<real>)
    ensures |r| == |trades| && forall k :: 0 <= k < |trades| ==> r[k] == trades[k].profitPercent
  {
    seq(|trades|, k requires 0 <= k < |trades| => trades[k].profitPercent)
  }

  function HoldDays(trades: seq<Trade>): (r: seq<real>)
    ensures |r| == |trades|
    ensures forall k :: 0 <= k < |trades| ==> r[k] == Days(trades[k].sellDate, trades[k].buyDate) as real
  {
    seq(|trades|, k requires 0 <= k < |trades| => Days(trades[k].sellDate, trades[k].buyDate) as real)
  }

  lemma PercentOfCount(w: nat, n: nat)
    requires 0 < n && w <= n
    ensures 0.0 <= (w as real / n as real) * 100.0 <= 100.0
  {
    DivBetween(w as real, n as real, 0.0, 1.0);
  }

  /** `_calculate_stats`: all zero for no trades. Otherwise the win rate is
      the percentage of trades with a positive profit, the average return and
      the average hold are the means of the returns and of the whole days
      held, the best and worst returns are attained by some trade and bound
      all of them (and so the average), and the total profit is the sum of the
      profits. */
  function CalculateStats(trades: seq<Trade>): (s: Stats)
    ensures trades == [] ==> s == ZeroStats
    ensures trades != [] ==>
              s.totalTrades == |trades|
              && s.winRate == (|set k | 0 <= k < |trades| && trades[k].profit > 0.0| as real
                               / |trades| as real) * 100.0
              && 0.0 <= s.winRate <= 100.0
              && s.avgProfit == Sum(ProfitPercents(trades)) / |trades| as real
              && s.avgHoldDays == Sum(HoldDays(trades)) / |trades| as real
              && s.maxLoss <= s.avgProfit <= s.maxProfit
              && s.totalProfit == Sum(Profits(trades))
              && (forall k :: 0 <= k < |trades| ==>
                    s.maxLoss <= trades[k].profitPercent <= s.maxProfit)
              && (exists k :: 0 <= k < |trades| && trades[k].profitPercent == s.maxProfit)
              && (exists k :: 0 <= k < |trades| && trades[k].profitPercent == s.maxLoss)
  {
    if trades == [] then ZeroStats
    else
      var n := |trades|;
      var pp := ProfitPercents(trades);
      PercentOfCount(Wins(trades), n);
      WinsCountPositive(trades);
      MeanBetweenMinMax(pp);
      Stats(n, (Wins(trades) as real / n as real) * 100.0, Sum(pp) / n as real,
            Sum(Profits(trades)), Max(pp), Min(pp), Sum(HoldDays(trades)) / n as real)
  }

  /** What `run_backtest` returns. */
  function Backtest(bt: Backtester, rows: seq<Row>): Outcome
  {
    var start := StartIndex(|rows|, bt.lookback);
    if start >= |rows| then Completed([], CalculateStats([]))
    else
      var st := After(bt, rows, start, |rows|);
      if !st.failed then Completed(st.trades, CalculateStats(st.trades))
      else if bt.BollingerBacktester? then Failed
      else Completed([], CalculateStats([]))
  }

  /** A failure stops the run for good. */
  lemma {:induction false} FailureAbsorbs(bt: Backtester, rows: seq<Row>, start: nat, j: nat, k: nat)
    requires start <= j <= k <= |rows| && After(bt, rows, start, j).failed
    ensures After(bt, rows, start, k).failed
    decreases k - j
  {
    if k > j {
      FailureAbsorbs(bt, rows, start, j, k - 1);
    }
  }

  /** `run_backtest`: the loop over rows `max(0, total - lookback)` onwards. */
  method RunBacktest(bt: Backtester, rows: seq<Row>) returns (result: Outcome)
    ensures result == Backtest(bt, rows)
  {
    if bt.VegasBacktester? && rows == [] {
      return Completed([], CalculateStats([]));
    }
    var trades: seq<Trade> := [];
    var current: Option<OpenTrade> := None;
    var inPosition := false;
    var buyDate: Option<int> := None;
    var total := |rows|;
    var start := StartIndex(total, bt.lookback);
    if start >= total {
      return Completed(trades, CalculateStats(trades));
    }
    var i := start;
    while i < total
      invariant start <= i <= total
      invariant State(inPosition, current, buyDate, trades, false) == After(bt, rows, start, i)
    {
      var d := DetectSignals(bt, rows[i], inPosition, buyDate);
      if d.buy && !inPosition {
        current := Some(OpenTrade(i, rows[i].bar.time, d.buyPrice));
        inPosition := true;
        buyDate := Some(rows[i].bar.time);
      } else if d.sell && inPosition && current.Some? {
        if current.value.buyPrice == 0.0 {
          FailedRun(bt, rows, i);
          if bt.BollingerBacktester? {
            return Failed;
          }
          return Completed([], CalculateStats([]));
        }
        trades := trades + [CloseTrade(current.value, i, rows[i].bar.time, d.sellPrice)];
        current := None;
        inPosition := false;
        buyDate := None;
      }
      i := i + 1;
    }
    CompletedRun(bt, rows);
    result := Completed(trades, CalculateStats(trades));
  }

  /** A run that fails at row `i` ends in failure, whatever follows. */
  lemma FailedRun(bt: Backtester, rows: seq<Row>, i: nat)
    requires StartIndex(|rows|, bt.lookback) <= i < |rows|
    requires After(bt, rows, StartIndex(|rows|, bt.lookback), i + 1).failed
    ensures Backtest(bt, rows) == if bt.BollingerBacktester? then Failed else Completed([], ZeroStats)
  {
    FailureAbsorbs(bt, rows, StartIndex(|rows|, bt.lookback), i + 1, |rows|);
  }

  /** A run that visits every row without failing completes with its trades. */
  lemma CompletedRun(bt: Backtester, rows: seq<Row>)
    requires StartIndex(|rows|, bt.lookback) < |rows|
    requires !After(bt, rows, StartIndex(|rows|, bt.lookback), |rows|).failed
    ensures var st := After(bt, rows, StartIndex(|rows|, bt.lookback), |rows|);
      Backtest(bt, rows) == Completed(st.trades, CalculateStats(st.trades))
  {
  }

  /** A completed trade as the loop records it: bought on an entry row at
      the body low, sold on a later exit row at the exit price once the
      cooldown had passed. */
  predicate TradeValid(bt: Backtester, rows: seq<Row>, t: Trade)
  {
    t.buyIndex < t.sellIndex < |rows|
    && t.buyDate == rows[t.buyIndex].bar.time && t.sellDate == rows[t.sellIndex].bar.time
    && Entry(bt, rows[t.buyIndex]) && t.buyPrice == BodyLow(rows[t.buyIndex].bar)
    && Exit(bt, rows[t.sellIndex]) && t.sellPrice == ExitPrice(bt, rows[t.sellIndex])
    && Days(t.sellDate, t.buyDate) >= bt.cooldown
    && t.buyPrice != 0.0 && t.profit == t.sellPrice - t.buyPrice
    && t.profitPercent == (t.profit / t.buyPrice) * 100.0
  }

  /** Trades in order, each sold before the next is bought. */
  predicate Chronological(trades: seq<Trade>)
  {
    forall k :: 0 <= k < |trades| - 1 ==> trades[k].sellIndex < trades[k + 1].buyIndex
  }

  predicate TradesValid(bt: Backtester, rows: seq<Row>, start: nat, i: nat, trades: seq<Trade>)
  {
    (forall k :: 0 <= k < |trades| ==>
       TradeValid(bt, rows, trades[k]) && start <= trades[k].buyIndex && trades[k].sellIndex < i)
    && Chronological(trades)
  }

  /** The three position variables agree, and an open trade was bought on an
      entry row after the last completed trade was sold. */
  predicate PositionValid(bt: Backtester, rows: seq<Row>, start: nat, i: nat, st: State)
  {
    (st.inPosition <==> st.current.Some?) && (st.buyDate.Some? <==> st.current.Some?)
    && (st.current.Some? ==>
          var o := st.current.value;
          st.buyDate == Some(o.buyDate) && start <= o.buyIndex < i && o.buyIndex < |rows|
          && o.buyDate == rows[o.buyIndex].bar.time
          && Entry(bt, rows[o.buyIndex]) && o.buyPrice == BodyLow(rows[o.buyIndex].bar)
          && (st.trades != [] ==> st.trades[|st.trades| - 1].sellIndex < o.buyIndex))
  }

  predicate Inv(bt: Backtester, rows: seq<Row>, start: nat, i: nat, st: State)
  {
    !st.failed ==> PositionValid(bt, rows, start, i, st) && TradesValid(bt, rows, start, i, st.trades)
  }

  lemma StepKeepsInv(bt: Backtester, rows: seq<Row>, start: nat, i: nat, st: State)
    requires start <= i < |rows| && Inv(bt, rows, start, i, st)
    ensures Inv(bt, rows, start, i + 1, Step(bt, rows, i, st))
  {
    if !st.failed {
      var row := rows[i];
      var d := DetectSignals(bt, row, st.inPosition, st.buyDate);
      var st' := Step(bt, rows, i, st);
      if d.buy && !st.inPosition {
        assert st'.trades == st.trades;
      } else if d.sell && st.inPosition && st.current.Some? && st.current.value.buyPrice != 0.0 {
        var o := st.current.value;
        var t := CloseTrade(o, i, row.bar.time, d.sellPrice);
        assert st'.trades == st.trades + [t];
        assert Days(row.bar.time, o.buyDate) >= bt.cooldown;
        assert TradeValid(bt, rows, t);
      }
    }
  }

  lemma {:induction false} AfterKeepsInv(bt: Backtester, rows: seq<Row>, start: nat, i: nat)
    requires start <= i <= |rows|
    ensures Inv(bt, rows, start, i, After(bt, rows, start, i))
    decreases i - start
  {
    if i > start {
      var st := After(bt, rows, start, i - 1);
      AfterKeepsInv(bt, rows, start, i - 1);
      StepKeepsInv(bt, rows, start, i - 1, st);
      assert After(bt, rows, start, i) == Step(bt, rows, i - 1, st);
    }
  }

  /** Every completed run yields valid, chronological, non-overlapping trades
      taken from the visited rows; each was held at least the cooldown. */
  lemma BacktestTradesValid(bt: Backtester, rows: seq<Row>)
    requires Backtest(bt, rows).Completed?
    ensures var trades := Backtest(bt, rows).trades;
      Chronological(trades)
      && forall k :: 0 <= k < |trades| ==>
           TradeValid(bt, rows, trades[k])
           && StartIndex(|rows|, bt.lookback) <= trades[k].buyIndex
           && Days(trades[k].sellDate, trades[k].buyDate) >= bt.cooldown
  {
    var start := StartIndex(|rows|, bt.lookback);
    if start < |rows| {
      AfterKeepsInv(bt, rows, start, |rows|);
    }
  }

  /** Only a zero buy price can stop a run, and only Bollinger lets it escape. */
  lemma FailureNeedsZeroBuyPrice(bt: Backtester, rows: seq<Row>)
    requires (forall i :: 0 <= i < |rows| ==> BodyLow(rows[i].bar) != 0.0) || bt.VegasBacktester?
    ensures Backtest(bt, rows).Completed?
  {
    if bt.BollingerBacktester? {
      var start := StartIndex(|rows|, bt.lookback);
      if start < |rows| {
        NeverFails(bt, rows, start, |rows|);
      }
    }
  }

  lemma {:induction false} NeverFails(bt: Backtester, rows: seq<Row>, start: nat, i: nat)
    requires start <= i <= |rows|
    requires forall j :: 0 <= j < |rows| ==> BodyLow(rows[j].bar) != 0.0
    ensures !After(bt, rows, start, i).failed
    decreases i - start
  {
    if i > start {
      NeverFails(bt, rows, start, i - 1);
      AfterKeepsInv(bt, rows, start, i - 1);
    }
  }

  /** Whenever every trade was held at least `c` days, so was the average. */
  lemma AverageHoldAtLeast(trades: seq<Trade>, c: int)
    requires trades != []
    requires forall k :: 0 <= k < |trades| ==> Days(trades[k].sellDate, trades[k].buyDate) >= c
    ensures CalculateStats(trades).avgHoldDays >= c as real
  {
    var hd := HoldDays(trades);
    MeanBetweenMinMax(hd);
    var j :| 0 <= j < |hd| && hd[j] == Min(hd);
    assert c as real <= hd[j];
    assert CalculateStats(trades).avgHoldDays == Sum(hd) / |hd| as real;
  }

  /** The win rate counts the trades with a positive profit. */
  lemma {:induction false} WinsCountPositive(trades: seq<Trade>)
    ensures Wins(trades) == |set k | 0 <= k < |trades| && trades[k].profit > 0.0|
  {
    if trades != [] {
      var init := trades[..|trades| - 1];
      WinsCountPositive(init);
      var last := |trades| - 1;
      var a := set k | 0 <= k < |init| && init[k].profit > 0.0;
      var b := set k | 0 <= k < |trades| && trades[k].profit > 0.0;
      if trades[last].profit > 0.0 {
        assert b == a + {last};
      } else {
        assert b == a;
      }
    }
  }

  /** The value at `i` of a possibly empty (failed) indicator series. */
  function At(xs: seq<Option<real>>, i: nat): Option<real>
  {
    if i < |xs| then xs[i] else None
  }

  /** The prepared rows with the Bollinger bands computed on the full history. */
  function BollingerFullRows(bars: seq<Bar>, sd: seq<Option<real>>, period: Indicators.Window,
                             k: int): (rows: seq<Row>)
    ensures |rows| == |bars|
  {
    var b := Indicators.BollingerBands(Closes(bars), sd, period, k);
    seq(|bars|, i requires 0 <= i < |bars| =>
      BollingerRow(bars[i], At(b.middle, i), At(b.upper, i), At(b.lower, i)))
  }

  /** The prepared rows with the Vegas tunnel computed on the full history; a
      tunnel that could not be computed leaves the columns undefined. */
  function VegasFullRows(bars: seq<Bar>, s1: nat, s2: nat, s3: nat): (rows: seq<Row>)
    ensures |rows| == |bars|
  {
    var t := Indicators.VegasTunnel(Closes(bars), s1, s2, s3);
    seq(|bars|, i requires 0 <= i < |bars| =>
      if |t.ema1| == |bars| then
        VegasRow(bars[i], Some(t.ema1[i]), Some(t.ema2[i]), Some(t.ema3[i]))
      else VegasRow(bars[i], None, None, None))
  }

  /** `df_full.iloc[start:]`. */
  function Tail(rows: seq<Row>, start: nat): (r: seq<Row>)
    ensures start <= |rows| ==> r == rows[start..]
    ensures start > |rows| ==> r == []
  {
    if start <= |rows| then rows[start..] else []
  }

  /** `prepare_data` of each backtester: indicators over the whole history,
      then only the last `lookback` rows (Vegas keeps `warmup` more). */
  function PrepareData(bt: Backtester, raw: seq<RawRow>, sd: seq<Option<real>>,
                       period: Indicators.Window, k: int, s1: nat, s2: nat, s3: nat): seq<Row>
  {
    var bars := Indicators.PrepareFrame(raw);
    if bars == [] then []
    else
      match bt
      case BollingerBacktester(lookback, _, _) =>
        Tail(BollingerFullRows(bars, sd, period, k), StartIndex(|bars|, lookback))
      case VegasBacktester(lookback, _, _, warmup) =>
        Tail(VegasFullRows(bars, s1, s2, s3), StartIndex(|bars|, lookback + warmup))
  }

  /** The last `keep` rows of a frame (none for a negative `keep`). */
  lemma TailWindow(full: seq<Row>, keep: int)
    ensures var r := Tail(full, StartIndex(|full|, keep));
      (keep >= 0 ==> |r| == if keep < |full| then keep else |full|)
      && (keep < 0 ==> r == [])
      && r == full[|full| - |r|..]
  {
  }

  /** Bollinger's window keeps the last `lookback` rows with the bands of the
      full history: the result is the final stretch of the full rows. */
  lemma BollingerKeepsHistory(bt: Backtester, raw: seq<RawRow>, sd: seq<Option<real>>,
                              period: Indicators.Window, k: int, s1: nat, s2: nat, s3: nat)
    requires bt.BollingerBacktester? && Indicators.PrepareFrame(raw) != []
    ensures var bars := Indicators.PrepareFrame(raw);
      var full := BollingerFullRows(bars, sd, period, k);
      var r := PrepareData(bt, raw, sd, period, k, s1, s2, s3);
      (bt.lookback >= 0 ==> |r| == if bt.lookback < |bars| then bt.lookback else |bars|)
      && (bt.lookback < 0 ==> r == [])
      && r == full[|bars| - |r|..]
  {
    var bars := Indicators.PrepareFrame(raw);
    var full := BollingerFullRows(bars, sd, period, k);
    assert |full| == |bars|;
    BollingerPrepareIsTail(bt, raw, sd, period, k, s1, s2, s3);
    TailWindow(full, bt.lookback);
  }

  lemma BollingerPrepareIsTail(bt: Backtester, raw: seq<RawRow>, sd: seq<Option<real>>,
                               period: Indicators.Window, k: int, s1: nat, s2: nat, s3: nat)
    requires bt.BollingerBacktester? && Indicators.PrepareFrame(raw) != []
    ensures var bars := Indicators.PrepareFrame(raw);
      PrepareData(bt, raw, sd, period, k, s1, s2, s3)
        == Tail(BollingerFullRows(bars, sd, period, k), StartIndex(|bars|, bt.lookback))
  {
  }

  /** Vegas keeps `warmup` rows more than the lookback, with the tunnel of the
      full history. */
  lemma VegasKeepsHistory(bt: Backtester, raw: seq<RawRow>, sd: seq<Option<real>>,
                          period: Indicators.Window, k: int, s1: nat, s2: nat, s3: nat)
    requires bt.VegasBacktester? && Indicators.PrepareFrame(raw) != []
    ensures var bars := Indicators.PrepareFrame(raw);
      var full := VegasFullRows(bars, s1, s2, s3);
      var keep := bt.lookback + bt.warmup;
      var r := PrepareData(bt, raw, sd, period, k, s1, s2, s3);
      (keep >= 0 ==> |r| == if keep < |bars| then keep else |bars|)
      && (keep < 0 ==> r == [])
      && r == full[|bars| - |r|..]
  {
    var bars := Indicators.PrepareFrame(raw);
    var full := VegasFullRows(bars, s1, s2, s3);
    assert |full| == |bars|;
    VegasPrepareIsTail(bt, raw, sd, period, k, s1, s2, s3);
    TailWindow(full, bt.lookback + bt.warmup);
  }

  lemma VegasPrepareIsTail(bt: Backtester, raw: seq<RawRow>, sd: seq<Option<real>>,
                           period: Indicators.Window, k: int, s1: nat, s2: nat, s3: nat)
    requires bt.VegasBacktester? && Indicators.PrepareFrame(raw) != []
    ensures var bars := Indicators.PrepareFrame(raw);
      PrepareData(bt, raw, sd, period, k, s1, s2, s3)
        == Tail(VegasFullRows(bars, s1, s2, s3), StartIndex(|bars|, bt.lookback + bt.warmup))
  {
  }
}
