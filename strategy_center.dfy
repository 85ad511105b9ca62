/** `StrategyCenter`: prepares the raw bars once, then runs the configured
    strategy names in order, each in its default (newest) mode, skipping names
    that are not registered and strategies that raise, and concatenates the
    signals. */
module StrategyCenter {
  import opened Common
  import opened Market
  import Indicators
  import BollingerStrategy
  import VegasStrategy
  import RsiStrategy
  import MacdStrategy
  import CsMaStrategy

  /** The parameters of the five registered strategies. */
  datatype Settings = Settings(boll: BollingerStrategy.Config, vegas: VegasStrategy.Config,
                               rsi: RsiStrategy.Config, macd: MacdStrategy.Config,
                               csma: CsMaStrategy.Config)

  /** Indicator series the model does not compute: the rolling standard
      deviation for the Bollinger bands, and the outputs of the RSI, MACD and
      CsMa calculators. `None` stands for a calculator that is missing, whose
      call raises. */
  datatype Externals = Externals(
    bollStd: seq<Option<real>>,
    rsi: Option<seq<Option<real>>>,
    macd: Option<(seq<Option<real>>, seq<Option<real>>)>,
    csma: Option<(seq<Option<real>>, seq<Option<real>>, seq<Option<real>>)>)

  /** What running one strategy gives: its signals, or an exception. */
  datatype Outcome = Ok(signals: seq<Signal>) | Raised

  /** The names of the registry. */
  predicate Registered(name: string)
  {
    name == "RSI" || name == "MACD" || name == "Bollinger" || name == "Vegas" || name == "CsMa"
  }

  /** `pd.to_numeric(errors='coerce').fillna(0)`: anything but a number becomes 0. */
  function Coerce(f: RawField): real
  {
    match f
    case Num(v, _) => v
    case _ => 0.0
  }

  function CoercedBar(t: int, row: RawRow): Bar
    requires |row| == RowWidth
  {
    Bar(t, Coerce(row[1]), Coerce(row[2]), Coerce(row[3]), Coerce(row[4]), Coerce(row[5]),
        Coerce(row[6]))
  }

  function ParsedRow(row: RawRow): Option<Bar>
    requires |row| <= RowWidth
  {
    var padded := PadRow(row);
    match Indicators.ParseTime(padded[0])
    case None => None
    case Some(t) => Some(CoercedBar(t, padded))
  }

  /** `_prepare_dataframe`: empty input, a frame that cannot be built or a
      time that is not a number gives the empty frame; otherwise every row
      becomes a bar with its prices coerced, sorted ascending by time. */
  function Prepare(raw: seq<RawRow>): (bars: seq<Bar>)
    ensures SortedByTime(bars)
    ensures |bars| <= |raw|
  {
    if raw == [] || !FrameShapeOk(raw) then []
    else
      var parsed := seq(|raw|, j requires 0 <= j < |raw| => ParsedRow(raw[j]));
      if exists j :: 0 <= j < |parsed| && parsed[j].None? then []
      else SortByTime(Compact(parsed))
  }

  /** One strategy's outcome on the prepared bars, or `None` for a name that
      is not registered. Every strategy runs in newest mode; a missing or
      misaligned calculator output raises. */
  function Dispatch(s: Settings, ext: Externals, name: string, bars: seq<Bar>): (o: Option<Outcome>)
    ensures o.Some? <==> Registered(name)
  {
    if name == "RSI" then
      if ext.rsi.None? || |ext.rsi.value| != |bars| then Some(Raised)
      else Some(Ok(RsiStrategy.Signals(s.rsi, bars, ext.rsi.value, Newest)))
    else if name == "MACD" then
      if ext.macd.None? || |ext.macd.value.0| != |bars| || |ext.macd.value.1| != |bars| then Some(Raised)
      else Some(Ok(MacdStrategy.Signals(s.macd, bars, ext.macd.value.0, ext.macd.value.1, Newest)))
    else if name == "Bollinger" then
      Some(Ok(BollingerStrategy.Signals(s.boll, bars, ext.bollStd, Newest)))
    else if name == "Vegas" then
      Some(Ok(VegasStrategy.Signals(s.vegas, bars)))
    else if name == "CsMa" then
      if ext.csma.None? || |ext.csma.value.0| != |bars| || |ext.csma.value.1| != |bars|
         || |ext.csma.value.2| != |bars| then Some(Raised)
      else Some(Ok(CsMaStrategy.Signals(s.csma, bars, ext.csma.value.0, ext.csma.value.1,
                                         ext.csma.value.2, Newest)))
    else None
  }

  /** What one configured name adds to the result. */
  function Contribution(s: Settings, ext: Externals, name: string, bars: seq<Bar>): seq<Signal>
  {
    match Dispatch(s, ext, name, bars)
    case None => []
    case Some(Raised) => []
    case Some(Ok(signals)) => signals
  }

  /** Each name's contribution, as a function of the name. */
  function ContributionOf(s: Settings, ext: Externals, bars: seq<Bar>): string -> seq<Signal>
  {
    name => Contribution(s, ext, name, bars)
  }

  /** What each of `names` adds under `f`, joined in order. */
  function CollectBy(names: seq<string>, f: string -> seq<Signal>): seq<Signal>
  {
    if names == [] then [] else CollectBy(names[..|names| - 1], f) + f(names[|names| - 1])
  }

  /** The contributions of `names`, in order. */
  function Collect(s: Settings, ext: Externals, names: seq<string>, bars: seq<Bar>): seq<Signal>
  {
    CollectBy(names, ContributionOf(s, ext, bars))
  }

  /** What `run_strategies` returns. */
  function Run(s: Settings, ext: Externals, configured: seq<string>, raw: seq<RawRow>): seq<Signal>
  {
    if configured == [] then []
    else
      var bars := Prepare(raw);
      if bars == [] then [] else Collect(s, ext, configured, bars)
  }

  /** `run_strategies`: one pass over the configured names, extending the result. */
  method RunStrategies(s: Settings, ext: Externals, configured: seq<string>, raw: seq<RawRow>)
    returns (all: seq<Signal>)
    ensures all == Run(s, ext, configured, raw)
  {
    if configured == [] {
      return [];
    }
    var bars := Prepare(raw);
    if bars == [] {
      return [];
    }
    all := [];
    var i := 0;
    while i < |configured|
      invariant 0 <= i <= |configured|
      invariant all == Collect(s, ext, configured[..i], bars)
    {
      CollectStep(s, ext, configured, bars, i);
      var outcome := Dispatch(s, ext, configured[i], bars);
      ContributionOfOutcome(s, ext, configured[i], bars);
      if outcome.Some? && outcome.value.Ok? && outcome.value.signals != [] {
        all := all + outcome.value.signals;
      }
      i := i + 1;
    }
    assert configured[..|configured|] == configured;
    assert Run(s, ext, configured, raw) == Collect(s, ext, configured, bars);
  }

  /** A name contributes the signals of a strategy that ran, and nothing otherwise. */
  lemma ContributionOfOutcome(s: Settings, ext: Externals, name: string, bars: seq<Bar>)
    ensures var o := Dispatch(s, ext, name, bars);
      Contribution(s, ext, name, bars) == if o.Some? && o.value.Ok? then o.value.signals else []
  {
  }

  /** No configured strategy, or no usable bars, gives no signals. */
  lemma NothingToRun(s: Settings, ext: Externals, configured: seq<string>, raw: seq<RawRow>)
    requires configured == [] || raw == [] || Prepare(raw) == []
    ensures Run(s, ext, configured, raw) == []
  {
  }

  /** A time field that `astype(int)` rejects (not a number, or text with a
      fraction or an exponent) makes preparation fail. */
  lemma BadTimeFails(raw: seq<RawRow>, j: nat)
    requires j < |raw| && |raw[j]| >= 1 && !IntCastable(raw[j][0])
    ensures Prepare(raw) == []
  {
    if raw != [] && FrameShapeOk(raw) {
      var parsed := seq(|raw|, j requires 0 <= j < |raw| => ParsedRow(raw[j]));
      assert PadRow(raw[j])[0] == raw[j][0];
      assert parsed[j].None?;
    }
  }

  /** With times `astype(int)` accepts, every row becomes one bar whose prices are the
      numbers of its fields or 0, and the bars are a time-sorted permutation
      of the rows. */
  lemma {:induction false} PrepareCoerces(raw: seq<RawRow>)
    requires raw != []
    requires forall j :: 0 <= j < |raw| ==> |raw[j]| == RowWidth && raw[j][0].Num? && IntCastable(raw[j][0])
    ensures multiset(Prepare(raw)) == multiset(CoercedRows(raw)) && |Prepare(raw)| == |raw|
  {
    assert FrameShapeOk(raw) by {
      assert |raw[0]| == RowWidth;
    }
    var parsed := seq(|raw|, j requires 0 <= j < |raw| => ParsedRow(raw[j]));
    var rows := CoercedRows(raw);
    forall j | 0 <= j < |raw|
      ensures parsed[j] == Some(rows[j])
    {
      FullRowCoerces(raw[j]);
    }
    assert Prepare(raw) == SortByTime(Compact(parsed)) by {
      assert !exists j :: 0 <= j < |parsed| && parsed[j].None?;
    }
    CompactValues(parsed, rows);
  }

  /** Each row as its coerced bar, in input order. */
  function CoercedRows(raw: seq<RawRow>): (r: seq<Bar>)
    requires forall j :: 0 <= j < |raw| ==> |raw[j]| == RowWidth && raw[j][0].Num?
    ensures |r| == |raw|
    ensures forall j :: 0 <= j < |raw| ==> r[j] == CoercedBar(Trunc(raw[j][0].v), raw[j])
  {
    seq(|raw|, j requires 0 <= j < |raw| => CoercedBar(Trunc(raw[j][0].v), raw[j]))
  }

  /** A full row with a time `astype(int)` accepts parses to its coerced bar. */
  lemma FullRowCoerces(row: RawRow)
    requires |row| == RowWidth && IntCastable(row[0])
    ensures ParsedRow(row) == Some(CoercedBar(Trunc(row[0].v), row))
  {
    assert PadRow(row) == row;
  }

  lemma {:induction false} CollectByAppend(a: seq<string>, b: seq<string>, f: string -> seq<Signal>)
    ensures CollectBy(a + b, f) == CollectBy(a, f) + CollectBy(b, f)
    decreases |b|
  {
    if b == [] {
      assert a + b == a;
    } else {
      var b0 := b[..|b| - 1];
      CollectByAppend(a, b0, f);
      assert (a + b)[..|a + b| - 1] == a + b0;
    }
  }

  /** The result for a concatenation of configurations is the concatenation
      of the results, in configuration order. */
  lemma CollectAppend(s: Settings, ext: Externals, a: seq<string>, b: seq<string>, bars: seq<Bar>)
    ensures Collect(s, ext, a + b, bars) == Collect(s, ext, a, bars) + Collect(s, ext, b, bars)
  {
    CollectByAppend(a, b, ContributionOf(s, ext, bars));
  }

  /** One more name adds its contribution. */
  lemma CollectStep(s: Settings, ext: Externals, names: seq<string>, bars: seq<Bar>, i: nat)
    requires i < |names|
    ensures Collect(s, ext, names[..i + 1], bars)
         == Collect(s, ext, names[..i], bars) + Contribution(s, ext, names[i], bars)
  {
    assert names[..i + 1][..i] == names[..i];
  }

  /** An unregistered name, or a strategy that raises, contributes nothing. */
  lemma SkippedContributesNothing(s: Settings, ext: Externals, name: string, bars: seq<Bar>)
    requires Dispatch(s, ext, name, bars).None? || Dispatch(s, ext, name, bars) == Some(Raised)
    ensures Contribution(s, ext, name, bars) == []
  {
  }

  /** A name that contributes nothing is skipped: the names after it still run. */
  lemma SkipsUnknownAndFailing(s: Settings, ext: Externals, a: seq<string>, name: string,
                               b: seq<string>, bars: seq<Bar>)
    requires Dispatch(s, ext, name, bars).None? || Dispatch(s, ext, name, bars) == Some(Raised)
    ensures Collect(s, ext, a + [name] + b, bars) == Collect(s, ext, a, bars) + Collect(s, ext, b, bars)
  {
    SkippedContributesNothing(s, ext, name, bars);
    SkipEmpty(s, ext, a, name, b, bars);
  }

  lemma SkipEmpty(s: Settings, ext: Externals, a: seq<string>, name: string, b: seq<string>,
                  bars: seq<Bar>)
    requires Contribution(s, ext, name, bars) == []
    ensures Collect(s, ext, a + [name] + b, bars) == Collect(s, ext, a, bars) + Collect(s, ext, b, bars)
  {
    SkipEmptyBy(a, name, b, ContributionOf(s, ext, bars));
  }

  lemma SkipEmptyBy(a: seq<string>, name: string, b: seq<string>, f: string -> seq<Signal>)
    requires f(name) == []
    ensures CollectBy(a + [name] + b, f) == CollectBy(a, f) + CollectBy(b, f)
  {
    var an := a + [name];
    assert a + [name] + b == an + b;
    CollectByAppend(an, b, f);
    assert CollectBy(an, f) == CollectBy(a, f) by {
      assert an[..|an| - 1] == a && an[|an| - 1] == name;
      assert CollectBy(an, f) == CollectBy(a, f) + f(name);
    }
  }

  /** A name configured twice runs twice. */
  lemma DuplicatesRunAgain(s: Settings, ext: Externals, name: string, bars: seq<Bar>)
    ensures Collect(s, ext, [name, name], bars) ==
            Contribution(s, ext, name, bars) + Contribution(s, ext, name, bars)
  {
    var f := ContributionOf(s, ext, bars);
    assert [name, name][..1] == [name] && [name][..0] == [];
    assert CollectBy([name], f) == f(name);
  }

  /** Each strategy runs in newest mode, so it contributes at most one signal,
      stamped with the last bar. */
  lemma ContributionIsNewest(s: Settings, ext: Externals, name: string, bars: seq<Bar>)
    ensures |Contribution(s, ext, name, bars)| <= 1
    ensures forall sg :: sg in Contribution(s, ext, name, bars) ==>
              bars != [] && sg.time == bars[|bars| - 1].time
  {
    var o := Dispatch(s, ext, name, bars);
    if o.Some? && o.value.Ok? {
      var signals := o.value.signals;
      assert Contribution(s, ext, name, bars) == signals;
      OkIsNewest(s, ext, name, bars, signals);
    } else {
      assert Contribution(s, ext, name, bars) == [];
    }
  }

  /** The signals of a strategy that ran come from the last bar. */
  lemma OkIsNewest(s: Settings, ext: Externals, name: string, bars: seq<Bar>, signals: seq<Signal>)
    requires Dispatch(s, ext, name, bars) == Some(Ok(signals))
    ensures |signals| <= 1
    ensures forall sg :: sg in signals ==> bars != [] && sg.time == bars[|bars| - 1].time
  {
    if name == "RSI" {
      RsiStrategy.NewestIsLastBar(s.rsi, bars, ext.rsi.value);
    } else if name == "MACD" {
      MacdStrategy.NewestIsLastBar(s.macd, bars, ext.macd.value.0, ext.macd.value.1);
    } else if name == "Bollinger" {
      BollingerStrategy.NewestIsLastBar(s.boll, bars, ext.bollStd);
    } else if name == "Vegas" {
      forall sg | sg in signals
        ensures sg.time == bars[|bars| - 1].time
      {
        VegasStrategy.SignalIsLastBar(s.vegas, bars, sg);
      }
    } else {
      CsMaStrategy.NewestIsLastBar(s.csma, bars, ext.csma.value.0, ext.csma.value.1, ext.csma.value.2);
    }
  }

  /** The whole run yields at most one signal per configured name, and every
      signal belongs to the newest bar. */
  lemma {:induction false} RunIsNewest(s: Settings, ext: Externals, names: seq<string>, bars: seq<Bar>)
    ensures |Collect(s, ext, names, bars)| <= |names|
    ensures forall sg :: sg in Collect(s, ext, names, bars) ==>
              bars != [] && sg.time == bars[|bars| - 1].time
  {
    if names != [] {
      var n := |names| - 1;
      RunIsNewest(s, ext, names[..n], bars);
      ContributionIsNewest(s, ext, names[n], bars);
      CollectStep(s, ext, names, bars, n);
      assert names[..n + 1] == names;
    }
  }
}
