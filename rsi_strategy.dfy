/** `RsiStrategy`: an RSI strictly below the oversold threshold is a buy, one
    strictly above the overbought threshold a sell. The RSI series is an input:
    its calculator is not part of this model. */
module RsiStrategy {
  import opened Common
  import opened Market
  import opened Text

  /** The calculator's RSI period and the two integer thresholds (35 and 75 by default). */
  datatype Config = Config(rsiPeriod: nat, oversold: int, overbought: int)

  /** `RSI_{oversold}_{overbought}`. */
  function Name(c: Config): string
  {
    "RSI_" + IntToString(c.oversold) + "_" + IntToString(c.overbought)
  }

  /** `_check_signal_condition`: buy is checked first, then sell. */
  function CheckSignal(c: Config, v: real): (r: Option<SignalType>)
    ensures r == Some(Buy) <==> v < c.oversold as real
    ensures r == Some(Sell) <==> v > c.overbought as real && !(v < c.oversold as real)
    ensures r == None <==> c.oversold as real <= v <= c.overbought as real
  {
    if v < c.oversold as real then Some(Buy)
    else if v > c.overbought as real then Some(Sell)
    else None
  }

  /** The signal record: the threshold is the oversold one for a buy and the
      overbought one for a sell. */
  function MakeSignal(c: Config, bar: Bar, kind: SignalType, v: real): Signal
  {
    Signal(Name(c), kind, bar.close, bar.time,
           RsiDetails(v, if kind == Buy then c.oversold else c.overbought))
  }

  /** The signal of bar `i`, if its RSI is defined and crosses a threshold. */
  function SignalAt(c: Config, bars: seq<Bar>, rsi: seq<Option<real>>, i: nat): (s: Option<Signal>)
    requires |rsi| == |bars| && i < |bars|
    ensures s.Some? ==> rsi[i].Some? && CheckSignal(c, rsi[i].value) == Some(s.value.kind)
    ensures s.Some? ==> s == Some(MakeSignal(c, bars[i], s.value.kind, rsi[i].value))
    ensures s.None? ==> rsi[i].None? || CheckSignal(c, rsi[i].value).None?
  {
    match rsi[i]
    case None => None
    case Some(v) =>
      match CheckSignal(c, v)
      case None => None
      case Some(k) => Some(MakeSignal(c, bars[i], k, v))
  }

  function PerBar(c: Config, bars: seq<Bar>, rsi: seq<Option<real>>): (r: seq<Option<Signal>>)
    requires |rsi| == |bars|
    ensures |r| == |bars|
    ensures forall i :: 0 <= i < |bars| ==> r[i] == SignalAt(c, bars, rsi, i)
  {
    seq(|bars|, i requires 0 <= i < |bars| => SignalAt(c, bars, rsi, i))
  }

  predicate AllNone(xs: seq<Option<real>>)
  {
    forall i :: 0 <= i < |xs| ==> xs[i].None?
  }

  /** The guards of `detect`: too few bars, or an RSI series with no value. */
  predicate Rejected(c: Config, bars: seq<Bar>, rsi: seq<Option<real>>)
  {
    bars == [] || |bars| < c.rsiPeriod || rsi == [] || AllNone(rsi)
  }

  /** What `detect` returns, mode by mode. */
  function Signals(c: Config, bars: seq<Bar>, rsi: seq<Option<real>>, mode: Mode): seq<Signal>
    requires |rsi| == |bars|
  {
    if Rejected(c, bars, rsi) then []
    else
      match mode
      case Newest => OptToSeq(SignalAt(c, bars, rsi, |bars| - 1))
      case Full => Compact(PerBar(c, bars, rsi))
      case OtherMode => []
  }

  /** `detect`. */
  method Detect(c: Config, bars: seq<Bar>, rsi: seq<Option<real>>, mode: Mode)
    returns (signals: seq<Signal>)
    requires |rsi| == |bars|
    ensures signals == Signals(c, bars, rsi, mode)
  {
    if bars == [] || |bars| < c.rsiPeriod {
      return [];
    }
    if rsi == [] || AllNone(rsi) {
      return [];
    }
    signals := [];
    if mode == Newest {
      var latest := rsi[|rsi| - 1];
      if latest.None? {
        return [];
      }
      var kind := CheckSignal(c, latest.value);
      if kind.Some? {
        signals := [MakeSignal(c, bars[|bars| - 1], kind.value, latest.value)];
      }
    } else if mode == Full {
      signals := ScanAll(c, bars, rsi);
    }
  }

  /** The full-mode loop over the RSI series, skipping undefined values. */
  method ScanAll(c: Config, bars: seq<Bar>, rsi: seq<Option<real>>) returns (signals: seq<Signal>)
    requires |rsi| == |bars|
    ensures signals == Compact(PerBar(c, bars, rsi))
  {
    ghost var per := PerBar(c, bars, rsi);
    signals := [];
    var i := 0;
    while i < |rsi|
      invariant 0 <= i <= |rsi|
      invariant signals == Compact(per[..i])
    {
      CompactPrefixStep(per, i);
      assert per[i] == SignalAt(c, bars, rsi, i);
      var current := rsi[i];
      if current.Some? {
        var kind := CheckSignal(c, current.value);
        if kind.Some? {
          signals := signals + [MakeSignal(c, bars[i], kind.value, current.value)];
        }
      }
      assert signals == Compact(per[..i + 1]);
      i := i + 1;
    }
    assert per[..|rsi|] == per;
  }

  /** Too few bars, or no RSI value at all, give no signals in any mode; so
      does an unknown mode. */
  lemma Guards(c: Config, bars: seq<Bar>, rsi: seq<Option<real>>, mode: Mode)
    requires |rsi| == |bars|
    requires |bars| < c.rsiPeriod || AllNone(rsi) || mode == OtherMode
    ensures Signals(c, bars, rsi, mode) == []
  {
  }

  /** With ordered thresholds, a value exactly on either threshold is silent. */
  lemma OnThresholdIsSilent(c: Config, v: real)
    requires c.oversold <= c.overbought
    requires v == c.oversold as real || v == c.overbought as real
    ensures CheckSignal(c, v) == None
  {
  }

  /** With ordered thresholds the two rules can never both hold. */
  lemma RulesExclusive(c: Config, v: real)
    requires c.oversold <= c.overbought
    ensures !(v < c.oversold as real && v > c.overbought as real)
  {
  }

  /** A signal's threshold is the one it crossed. */
  lemma ThresholdMatchesKind(c: Config, bars: seq<Bar>, rsi: seq<Option<real>>, mode: Mode, s: Signal)
    requires |rsi| == |bars| && s in Signals(c, bars, rsi, mode)
    ensures s.details.RsiDetails?
    ensures s.kind == Buy ==> s.details.threshold == c.oversold
                              && s.details.rsiValue < c.oversold as real
    ensures s.kind == Sell ==> s.details.threshold == c.overbought
                               && s.details.rsiValue > c.overbought as real
  {
    if mode == Full {
      var per := PerBar(c, bars, rsi);
      CompactMember(per, s);
    }
  }

  /** Newest mode yields at most one signal, for the last bar, and none when
      the last RSI is undefined. */
  lemma NewestIsLastBar(c: Config, bars: seq<Bar>, rsi: seq<Option<real>>)
    requires |rsi| == |bars|
    ensures |Signals(c, bars, rsi, Newest)| <= 1
    ensures forall s :: s in Signals(c, bars, rsi, Newest) ==>
              s.time == bars[|bars| - 1].time && s.price == bars[|bars| - 1].close
    ensures |bars| > 0 && rsi[|bars| - 1].None? ==> Signals(c, bars, rsi, Newest) == []
  {
  }

  /** Full mode: one signal per signalling bar with a defined RSI, in bar order. */
  lemma {:induction false} FullInBarOrder(c: Config, bars: seq<Bar>, rsi: seq<Option<real>>)
    requires |rsi| == |bars| && !Rejected(c, bars, rsi)
    ensures var idx := SomeIndices(PerBar(c, bars, rsi));
      var s := Signals(c, bars, rsi, Full);
      |idx| == |s|
      && (forall m :: 0 <= m < |idx| ==>
            idx[m] < |bars| && rsi[idx[m]].Some?
            && s[m] == MakeSignal(c, bars[idx[m]], s[m].kind, rsi[idx[m]].value)
            && CheckSignal(c, rsi[idx[m]].value) == Some(s[m].kind))
      && (forall m1, m2 :: 0 <= m1 < m2 < |idx| ==> idx[m1] < idx[m2])
      && (forall i :: 0 <= i < |bars| && rsi[i].Some? && CheckSignal(c, rsi[i].value).Some? ==>
            i in idx)
  {
    var per := PerBar(c, bars, rsi);
    CompactIndexed(per);
    forall m | 0 <= m < |SomeIndices(per)|
      ensures SignalAt(c, bars, rsi, SomeIndices(per)[m]) == Some(Compact(per)[m])
    {
    }
  }

  /** Newest mode is full mode restricted to the last bar. */
  lemma ModesAgree(c: Config, bars: seq<Bar>, rsi: seq<Option<real>>)
    requires |rsi| == |bars| && !Rejected(c, bars, rsi)
    ensures var full := Signals(c, bars, rsi, Full);
      var newest := Signals(c, bars, rsi, Newest);
      (newest != [] ==> full != [] && newest == [full[|full| - 1]])
      && (newest == [] ==> full == Compact(PerBar(c, bars, rsi)[..|bars| - 1]))
  {
    CompactLast(PerBar(c, bars, rsi));
  }
}
