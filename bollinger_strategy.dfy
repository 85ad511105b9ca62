/** `BollingerStrategy`: a bar that touches the lower band is a buy, one that
    touches the upper band a sell, and buy wins when both are touched. */
module BollingerStrategy {
  import opened Common
  import opened Market
  import opened Text
  import opened Indicators

  /** Band period and multiplier of the indicator calculator, and the two
      tolerances that widen the touch zones. */
  datatype Config = Config(period: Window, std: int, upperTol: real, lowerTol: real)

  /** `Bollinger_{period}_{std}`. */
  function Name(c: Config): string
  {
    "Bollinger_" + NatToString(c.period) + "_" + IntToString(c.std)
  }

  /** The low reaches the lower band, widened by the lower tolerance. */
  predicate TouchesLower(c: Config, bar: Bar, lower: real)
  {
    bar.low <= lower * (1.0 + c.lowerTol)
  }

  /** The high reaches the upper band, narrowed by the upper tolerance. */
  predicate TouchesUpper(c: Config, bar: Bar, upper: real)
  {
    bar.high >= upper * (1.0 - c.upperTol)
  }

  /** `_check_signal_condition`: the signal type is first set to sell when the
      upper band is touched, then overwritten with buy when the lower band is. */
  function CheckSignal(c: Config, bar: Bar, middle: real, upper: real, lower: real)
    : (r: Option<(SignalType, Details)>)
    ensures r.Some? && r.value.0 == Buy <==> TouchesLower(c, bar, lower)
    ensures r.Some? && r.value.0 == Sell <==>
              TouchesUpper(c, bar, upper) && !TouchesLower(c, bar, lower)
    ensures r.None? <==> !TouchesUpper(c, bar, upper) && !TouchesLower(c, bar, lower)
    ensures r.Some? ==>
              r.value.1 == BollingerDetails(bar.close, bar.high, bar.low, upper, middle, lower)
  {
    var kind := if TouchesUpper(c, bar, upper) then Some(Sell) else None;
    var kind := if TouchesLower(c, bar, lower) then Some(Buy) else kind;
    match kind
    case None => None
    case Some(k) => Some((k, BollingerDetails(bar.close, bar.high, bar.low, upper, middle, lower)))
  }

  /** The bands of the bars' closes. */
  function BandsOf(c: Config, bars: seq<Bar>, sd: seq<Option<real>>): Bands
  {
    BollingerBands(Closes(bars), sd, c.period, c.std)
  }

  /** The signal of bar `i`, if its bands are defined and it touches one. */
  function SignalAt(c: Config, bars: seq<Bar>, b: Bands, i: nat): (s: Option<Signal>)
    requires i < |bars| && |b.upper| == |bars| && |b.lower| == |bars| && |b.middle| == |bars|
    requires forall j :: 0 <= j < |b.upper| && (b.upper[j].Some? || b.lower[j].Some?) ==>
               b.middle[j].Some?
    ensures s.Some? ==> b.upper[i].Some? && b.lower[i].Some?
    ensures s.Some? ==> s.value.strategy == Name(c) && s.value.price == bars[i].close
                        && s.value.time == bars[i].time
    ensures s.Some? ==> Some((s.value.kind, s.value.details)) ==
                        CheckSignal(c, bars[i], b.middle[i].value, b.upper[i].value, b.lower[i].value)
  {
    if b.upper[i].None? || b.lower[i].None? then None
    else
      match CheckSignal(c, bars[i], b.middle[i].value, b.upper[i].value, b.lower[i].value)
      case None => None
      case Some((k, d)) => Some(Signal(Name(c), k, bars[i].close, bars[i].time, d))
  }

  /** The per-bar outcomes that full mode collects. */
  function PerBar(c: Config, bars: seq<Bar>, b: Bands): (r: seq<Option<Signal>>)
    requires |b.upper| == |bars| && |b.lower| == |bars| && |b.middle| == |bars|
    requires forall j :: 0 <= j < |b.upper| && (b.upper[j].Some? || b.lower[j].Some?) ==>
               b.middle[j].Some?
    ensures |r| == |bars|
    ensures forall i :: 0 <= i < |bars| ==> r[i] == SignalAt(c, bars, b, i)
  {
    seq(|bars|, i requires 0 <= i < |bars| => SignalAt(c, bars, b, i))
  }

  function AllNone(xs: seq<Option<real>>): bool
  {
    forall i :: 0 <= i < |xs| ==> xs[i].None?
  }

  /** The guards of `detect`: too few bars, or bands that are nowhere defined. */
  predicate Rejected(c: Config, bars: seq<Bar>, sd: seq<Option<real>>)
  {
    bars == [] || |bars| < c.period
    || AllNone(BandsOf(c, bars, sd).upper) || AllNone(BandsOf(c, bars, sd).lower)
  }

  /** What `detect` returns, mode by mode. */
  function Signals(c: Config, bars: seq<Bar>, sd: seq<Option<real>>, mode: Mode): seq<Signal>
  {
    if Rejected(c, bars, sd) then []
    else
      var b := BandsOf(c, bars, sd);
      match mode
      case Newest => OptToSeq(SignalAt(c, bars, b, |bars| - 1))
      case Full => Compact(PerBar(c, bars, b))
      case OtherMode => []
  }

  /** `detect`: one pass over the bars in full mode, the last bar in newest mode. */
  method Detect(c: Config, bars: seq<Bar>, sd: seq<Option<real>>, mode: Mode)
    returns (signals: seq<Signal>)
    ensures signals == Signals(c, bars, sd, mode)
  {
    if bars == [] || |bars| < c.period {
      return [];
    }
    var b := BandsOf(c, bars, sd);
    if AllNone(b.upper) || AllNone(b.lower) {
      return [];
    }
    signals := [];
    if mode == Newest {
      var last := |bars| - 1;
      if b.upper[last].None? || b.lower[last].None? {
        return [];
      }
      var r := CheckSignal(c, bars[last], b.middle[last].value, b.upper[last].value,
                           b.lower[last].value);
      if r.Some? {
        signals := [Signal(Name(c), r.value.0, bars[last].close, bars[last].time, r.value.1)];
      }
    } else if mode == Full {
      signals := ScanAll(c, bars, b);
    }
  }

  /** The full-mode loop over every bar, skipping bars whose bands are undefined. */
  method ScanAll(c: Config, bars: seq<Bar>, b: Bands) returns (signals: seq<Signal>)
    requires |b.upper| == |bars| && |b.lower| == |bars| && |b.middle| == |bars|
    requires forall j :: 0 <= j < |b.upper| && (b.upper[j].Some? || b.lower[j].Some?) ==>
               b.middle[j].Some?
    ensures signals == Compact(PerBar(c, bars, b))
  {
    ghost var per := PerBar(c, bars, b);
    signals := [];
    var i := 0;
    while i < |bars|
      invariant 0 <= i <= |bars|
      invariant signals == Compact(per[..i])
    {
      CompactPrefixStep(per, i);
      assert per[i] == SignalAt(c, bars, b, i);
      if b.upper[i].Some? && b.lower[i].Some? {
        var r := CheckSignal(c, bars[i], b.middle[i].value, b.upper[i].value, b.lower[i].value);
        if r.Some? {
          signals := signals + [Signal(Name(c), r.value.0, bars[i].close, bars[i].time, r.value.1)];
        }
      }
      assert signals == Compact(per[..i + 1]);
      i := i + 1;
    }
    assert per[..|bars|] == per;
  }

  /** Too few bars, or bands undefined everywhere, give no signals in any mode. */
  lemma Guards(c: Config, bars: seq<Bar>, sd: seq<Option<real>>, mode: Mode)
    requires |bars| < c.period || AllNone(BandsOf(c, bars, sd).upper)
             || AllNone(BandsOf(c, bars, sd).lower)
    ensures Signals(c, bars, sd, mode) == []
  {
  }

  /** A one-bar window has no sample deviation, so the bands never exist and
      the strategy never signals. */
  lemma PeriodOneIsSilent(c: Config, bars: seq<Bar>, sd: seq<Option<real>>, mode: Mode)
    requires c.period == 1 && IsRollingStd(Closes(bars), c.period, sd)
    ensures Signals(c, bars, sd, mode) == []
  {
    var b := BandsOf(c, bars, sd);
    assert AllNone(b.upper) by {
      forall i | 0 <= i < |b.upper|
        ensures b.upper[i].None?
      {
        assert sd[i].None?;
      }
    }
  }

  /** An unknown mode gives no signals. */
  lemma UnknownMode(c: Config, bars: seq<Bar>, sd: seq<Option<real>>)
    ensures Signals(c, bars, sd, OtherMode) == []
  {
  }

  /** Newest mode yields at most one signal, for the last bar, priced at its
      close, and none when the last bands are undefined. */
  lemma NewestIsLastBar(c: Config, bars: seq<Bar>, sd: seq<Option<real>>)
    ensures |Signals(c, bars, sd, Newest)| <= 1
    ensures forall s :: s in Signals(c, bars, sd, Newest) ==>
              s.time == bars[|bars| - 1].time && s.price == bars[|bars| - 1].close
    ensures |bars| > 0 && |sd| == |bars| &&
            (BandsOf(c, bars, sd).upper[|bars| - 1].None? ||
             BandsOf(c, bars, sd).lower[|bars| - 1].None?) ==>
              Signals(c, bars, sd, Newest) == []
  {
  }

  /** Full mode: the m-th signal comes from the m-th signalling bar, bars
      strictly increase, each has defined bands, the signal is that bar's
      check priced at its close, and every bar whose check fires appears. */
  lemma {:induction false} FullInBarOrder(c: Config, bars: seq<Bar>, sd: seq<Option<real>>)
    requires !Rejected(c, bars, sd)
    ensures var b := BandsOf(c, bars, sd);
      var idx := SomeIndices(PerBar(c, bars, b));
      var s := Signals(c, bars, sd, Full);
      |idx| == |s|
      && (forall m :: 0 <= m < |idx| ==>
            idx[m] < |bars| && b.upper[idx[m]].Some? && b.lower[idx[m]].Some?
            && s[m].time == bars[idx[m]].time && s[m].price == bars[idx[m]].close
            && Some((s[m].kind, s[m].details)) ==
               CheckSignal(c, bars[idx[m]], b.middle[idx[m]].value, b.upper[idx[m]].value,
                           b.lower[idx[m]].value))
      && (forall m1, m2 :: 0 <= m1 < m2 < |idx| ==> idx[m1] < idx[m2])
      && (forall i ::
            0 <= i < |bars| && b.upper[i].Some? && b.lower[i].Some?
            && CheckSignal(c, bars[i], b.middle[i].value, b.upper[i].value, b.lower[i].value).Some?
            ==> i in idx)
  {
    var b := BandsOf(c, bars, sd);
    var per := PerBar(c, bars, b);
    var idx := SomeIndices(per);
    var s := Signals(c, bars, sd, Full);
    assert s == Compact(per);
    IndicesValues(per);
    IndicesIncrease(per);
    forall m | 0 <= m < |idx|
      ensures SignalAt(c, bars, b, idx[m]) == Some(s[m])
    {
      assert per[idx[m]] == Some(s[m]);
    }
    FiringBarsListed(c, bars, sd);
  }

  /** Every bar with defined bands whose check fires is a signalling bar. */
  lemma FiringBarsListed(c: Config, bars: seq<Bar>, sd: seq<Option<real>>)
    requires !Rejected(c, bars, sd)
    ensures var b := BandsOf(c, bars, sd);
      forall i ::
        0 <= i < |bars| && b.upper[i].Some? && b.lower[i].Some?
        && CheckSignal(c, bars[i], b.middle[i].value, b.upper[i].value, b.lower[i].value).Some?
        ==> i in SomeIndices(PerBar(c, bars, b))
  {
    var b := BandsOf(c, bars, sd);
    var per := PerBar(c, bars, b);
    IndicesCover(per);
  }

  /** The two modes agree: newest mode is full mode restricted to the last
      bar — its signal, if any, is full mode's last signal, and otherwise the
      last bar adds nothing to full mode. */
  lemma {:induction false} ModesAgree(c: Config, bars: seq<Bar>, sd: seq<Option<real>>)
    requires !Rejected(c, bars, sd)
    ensures var full := Signals(c, bars, sd, Full);
      var newest := Signals(c, bars, sd, Newest);
      (newest != [] ==> full != [] && newest == [full[|full| - 1]])
      && (newest == [] ==>
            full == Compact(PerBar(c, bars, BandsOf(c, bars, sd))[..|bars| - 1]))
  {
    var per := PerBar(c, bars, BandsOf(c, bars, sd));
    CompactLast(per);
  }
}
