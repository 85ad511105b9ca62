/** `VegasStrategy`: the last bar is judged against the fast, medium and slow
    averages of the Vegas tunnel; a close below the fast average is a sell and
    overrides the buy rule. */
module VegasStrategy {
  import opened Common
  import opened Market
  import opened Text
  import opened Indicators

  /** The three spans (12, 144 and 169 by default). */
  datatype Config = Config(ema1: nat, ema2: nat, ema3: nat)

  /** `Vegas_Modified_{ema1}_{ema2}_{ema3}`. */
  function Name(c: Config): string
  {
    "Vegas_Modified_" + NatToString(c.ema1) + "_" + NatToString(c.ema2) + "_" + NatToString(c.ema3)
  }

  predicate Uptrend(e1: real, e2: real)
  {
    e1 > e2
  }

  /** The close lies between the slow average (below) and the medium one (above). */
  predicate InTunnel(close: real, e2: real, e3: real)
  {
    e3 <= close <= e2
  }

  predicate BreaksFast(close: real, e1: real)
  {
    close < e1
  }

  /** The signal type is set to buy by the tunnel rule, then overwritten by
      sell when the close breaks below the fast average. */
  function Decide(close: real, e1: real, e2: real, e3: real): (r: Option<SignalType>)
    ensures r == Some(Sell) <==> BreaksFast(close, e1)
    ensures r == Some(Buy) <==>
              Uptrend(e1, e2) && InTunnel(close, e2, e3) && !BreaksFast(close, e1)
    ensures r == None <==> !BreaksFast(close, e1) && !(Uptrend(e1, e2) && InTunnel(close, e2, e3))
  {
    var kind := if Uptrend(e1, e2) && InTunnel(close, e2, e3) then Some(Buy) else None;
    var kind := if BreaksFast(close, e1) then Some(Sell) else kind;
    kind
  }

  /** The guards of `detect`: too few bars for the slowest span, or a tunnel
      that could not be computed. */
  predicate Rejected(c: Config, bars: seq<Bar>)
  {
    var t := VegasTunnel(Closes(bars), c.ema1, c.ema2, c.ema3);
    bars == [] || |bars| < c.ema3 || t.ema1 == [] || t.ema2 == [] || t.ema3 == []
  }

  /** `detect`: at most one signal, for the last bar. */
  function Signals(c: Config, bars: seq<Bar>): (r: seq<Signal>)
    ensures |r| <= 1
  {
    if Rejected(c, bars) then []
    else
      var t := VegasTunnel(Closes(bars), c.ema1, c.ema2, c.ema3);
      var n := |bars| - 1;
      var close, e1, e2, e3 := bars[n].close, t.ema1[n], t.ema2[n], t.ema3[n];
      match Decide(close, e1, e2, e3)
      case None => []
      case Some(k) =>
        [Signal(Name(c), k, close, bars[n].time, VegasDetails(close, e1, e2, e3, Uptrend(e1, e2)))]
  }

  /** Too few bars, or a span below one, give no signal. */
  lemma Guards(c: Config, bars: seq<Bar>)
    requires |bars| < c.ema3 || c.ema1 < 1 || c.ema2 < 1 || c.ema3 < 1
    ensures Signals(c, bars) == []
  {
  }

  /** A signal belongs to the last bar, is priced at its close, and records
      the last values of the three averages and whether the trend is up. */
  lemma SignalIsLastBar(c: Config, bars: seq<Bar>, s: Signal)
    requires s in Signals(c, bars)
    ensures var n := |bars| - 1;
      var a1, a2, a3 := Alpha(c.ema1), Alpha(c.ema2), Alpha(c.ema3);
      c.ema1 >= 1 && c.ema2 >= 1 && c.ema3 >= 1 && |bars| >= c.ema3 && |bars| > 0
      && s.strategy == Name(c) && s.time == bars[n].time && s.price == bars[n].close
      && s.details == VegasDetails(bars[n].close, Ema(Closes(bars), a1)[n],
                                   Ema(Closes(bars), a2)[n], Ema(Closes(bars), a3)[n],
                                   Ema(Closes(bars), a1)[n] > Ema(Closes(bars), a2)[n])
  {
  }

  /** A close inside the tunnel is at most the medium average, which in an
      uptrend is below the fast one: the buy rule always implies the sell rule. */
  lemma BuyRuleImpliesSell(close: real, e1: real, e2: real, e3: real)
    requires Uptrend(e1, e2) && InTunnel(close, e2, e3)
    ensures BreaksFast(close, e1)
    ensures Decide(close, e1, e2, e3) == Some(Sell)
  {
  }

  /** Consequently this detector never emits a buy. */
  lemma NeverBuys(c: Config, bars: seq<Bar>)
    ensures forall s :: s in Signals(c, bars) ==> s.kind == Sell
  {
  }

  /** There is a signal exactly when the last close is below the last fast
      average (and the guards pass). */
  lemma SignalIffBelowFast(c: Config, bars: seq<Bar>)
    requires !Rejected(c, bars)
    ensures var t := VegasTunnel(Closes(bars), c.ema1, c.ema2, c.ema3);
      Signals(c, bars) != [] <==> bars[|bars| - 1].close < t.ema1[|bars| - 1]
  {
  }
}
