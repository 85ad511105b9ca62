/** `MacdStrategy`: a golden cross of the MACD line over its signal line is a
    buy, a death cross a sell. The MACD and signal series are inputs: their
    calculator is not part of this model. */
module MacdStrategy {
  import opened Common
  import opened Market
  import opened Text

  /** The calculator's fast, slow and signal spans. */
  datatype Config = Config(fast: nat, slow: nat, signal: nat)

  /** `MACD_Cross_{fast}_{slow}_{signal}`. */
  function Name(c: Config): string
  {
    "MACD_Cross_" + NatToString(c.fast) + "_" + NatToString(c.slow) + "_" + NatToString(c.signal)
  }

  /** Python's `<` and `>` on possibly-NaN floats: false when either is NaN. */
  predicate Below(a: Option<real>, b: Option<real>)
  {
    a.Some? && b.Some? && a.value < b.value
  }

  predicate Above(a: Option<real>, b: Option<real>)
  {
    a.Some? && b.Some? && a.value > b.value
  }

  predicate GoldenCross(pm: Option<real>, cm: Option<real>, ps: Option<real>, cs: Option<real>)
  {
    Below(pm, ps) && Above(cm, cs)
  }

  predicate DeathCross(pm: Option<real>, cm: Option<real>, ps: Option<real>, cs: Option<real>)
  {
    Above(pm, ps) && Below(cm, cs)
  }

  /** `_check_cross_condition` on the previous and current MACD and signal values. */
  function CheckCross(pm: Option<real>, cm: Option<real>, ps: Option<real>, cs: Option<real>)
    : (r: Option<(SignalType, Details)>)
    ensures r.Some? && r.value.0 == Buy <==> GoldenCross(pm, cm, ps, cs)
    ensures r.Some? && r.value.0 == Sell <==> DeathCross(pm, cm, ps, cs)
    ensures r.Some? ==> cm.Some? && cs.Some?
    ensures r.Some? ==> r.value.1 == MacdDetails(if r.value.0 == Buy then Market.GoldenCross
                                                  else Market.DeathCross, cm.value, cs.value)
  {
    if GoldenCross(pm, cm, ps, cs) then Some((Buy, MacdDetails(Market.GoldenCross, cm.value, cs.value)))
    else if DeathCross(pm, cm, ps, cs) then Some((Sell, MacdDetails(Market.DeathCross, cm.value, cs.value)))
    else None
  }

  /** A bar of the merged frame where both lines are defined. */
  datatype Row = Row(bar: Bar, macd: real, signal: real)

  function MergedAt(bars: seq<Bar>, macd: seq<Option<real>>, sig: seq<Option<real>>, i: nat)
    : Option<Row>
    requires |macd| == |bars| && |sig| == |bars| && i < |bars|
  {
    if macd[i].Some? && sig[i].Some? then Some(Row(bars[i], macd[i].value, sig[i].value)) else None
  }

  /** The merged frame after `dropna`: bars where both lines are defined, in order. */
  function Merged(bars: seq<Bar>, macd: seq<Option<real>>, sig: seq<Option<real>>): seq<Row>
    requires |macd| == |bars| && |sig| == |bars|
  {
    Compact(seq(|bars|, i requires 0 <= i < |bars| => MergedAt(bars, macd, sig, i)))
  }

  /** The signal that row `prev` followed by row `curr` gives, stamped with `curr`. */
  function PairSignal(c: Config, prev: Row, curr: Row): (s: Option<Signal>)
    ensures s.Some? ==> s.value.time == curr.bar.time && s.value.price == curr.bar.close
  {
    match CheckCross(Some(prev.macd), Some(curr.macd), Some(prev.signal), Some(curr.signal))
    case None => None
    case Some((k, d)) => Some(Signal(Name(c), k, curr.bar.close, curr.bar.time, d))
  }

  /** Entry `j` compares row `j` with row `j + 1`, so the first row is never a
      signal's current row. */
  function PerPair(c: Config, rows: seq<Row>): seq<Option<Signal>>
  {
    Pairwise(rows, (prev: Row, curr: Row) => PairSignal(c, prev, curr))
  }

  predicate AllNone(xs: seq<Option<real>>)
  {
    forall i :: 0 <= i < |xs| ==> xs[i].None?
  }

  predicate Rejected(c: Config, bars: seq<Bar>, macd: seq<Option<real>>, sig: seq<Option<real>>)
  {
    bars == [] || |bars| < c.slow + c.signal || AllNone(macd) || AllNone(sig)
  }

  /** Newest mode: needs two defined values of each line anywhere, then
      compares the raw last two entries (NaN compares false). */
  function NewestSignals(c: Config, bars: seq<Bar>, macd: seq<Option<real>>, sig: seq<Option<real>>)
    : (r: seq<Signal>)
    requires |macd| == |bars| && |sig| == |bars|
    ensures |r| <= 1
  {
    if |Compact(macd)| < 2 || |Compact(sig)| < 2 then []
    else
      var n := |bars|;
      match CheckCross(macd[n - 2], macd[n - 1], sig[n - 2], sig[n - 1])
      case None => []
      case Some((k, d)) => [Signal(Name(c), k, bars[n - 1].close, bars[n - 1].time, d)]
  }

  /** What `detect` returns, mode by mode. */
  function Signals(c: Config, bars: seq<Bar>, macd: seq<Option<real>>, sig: seq<Option<real>>,
                   mode: Mode): seq<Signal>
    requires |macd| == |bars| && |sig| == |bars|
  {
    if Rejected(c, bars, macd, sig) then []
    else
      match mode
      case Newest => NewestSignals(c, bars, macd, sig)
      case Full => Compact(PerPair(c, Merged(bars, macd, sig)))
      case OtherMode => []
  }

  /** `detect`. */
  method Detect(c: Config, bars: seq<Bar>, macd: seq<Option<real>>, sig: seq<Option<real>>, mode: Mode)
    returns (signals: seq<Signal>)
    requires |macd| == |bars| && |sig| == |bars|
    ensures signals == Signals(c, bars, macd, sig, mode)
  {
    if bars == [] || |bars| < c.slow + c.signal {
      return [];
    }
    if AllNone(macd) || AllNone(sig) {
      return [];
    }
    signals := [];
    if mode == Newest {
      if |Compact(macd)| < 2 || |Compact(sig)| < 2 {
        return [];
      }
      var n := |bars|;
      var r := CheckCross(macd[n - 2], macd[n - 1], sig[n - 2], sig[n - 1]);
      if r.Some? {
        signals := [Signal(Name(c), r.value.0, bars[n - 1].close, bars[n - 1].time, r.value.1)];
      }
    } else if mode == Full {
      var rows := Merged(bars, macd, sig);
      signals := ScanPairs(c, rows);
    }
  }

  /** The full-mode loop from the second row on, comparing each row with the previous one. */
  method ScanPairs(c: Config, rows: seq<Row>) returns (signals: seq<Signal>)
    ensures signals == Compact(PerPair(c, rows))
  {
    ghost var per := PerPair(c, rows);
    signals := [];
    if rows == [] {
      return;
    }
    assert |per| == |rows| - 1;
    var i := 1;
    while i < |rows|
      invariant 1 <= i <= |rows|
      invariant signals == Compact(per[..i - 1])
    {
      ScanStep(c, rows, i);
      var s := PairSignal(c, rows[i - 1], rows[i]);
      if s.Some? {
        signals := signals + [s.value];
      }
      i := i + 1;
    }
    assert per[..|rows| - 1] == per;
  }

  /** One more pair adds that pair's signal, if any, to the compacted prefix. */
  lemma ScanStep(c: Config, rows: seq<Row>, i: nat)
    requires 1 <= i < |rows|
    ensures Compact(PerPair(c, rows)[..i]) ==
            Compact(PerPair(c, rows)[..i - 1]) + OptToSeq(PairSignal(c, rows[i - 1], rows[i]))
  {
    var per := PerPair(c, rows);
    CompactPrefixStep(per, i - 1);
    assert per[i - 1] == PairSignal(c, rows[i - 1], rows[i]);
  }


  /** Golden and death crosses exclude each other, and equal lines at either
      bar give no signal. */
  lemma CrossesExclusive(pm: Option<real>, cm: Option<real>, ps: Option<real>, cs: Option<real>)
    ensures !(GoldenCross(pm, cm, ps, cs) && DeathCross(pm, cm, ps, cs))
    ensures pm == ps || cm == cs ==> CheckCross(pm, cm, ps, cs) == None
  {
  }

  /** Too few bars, or a line with no value, give no signals in any mode; so
      does an unknown mode. */
  lemma Guards(c: Config, bars: seq<Bar>, macd: seq<Option<real>>, sig: seq<Option<real>>, mode: Mode)
    requires |macd| == |bars| && |sig| == |bars|
    requires |bars| < c.slow + c.signal || AllNone(macd) || AllNone(sig) || mode == OtherMode
    ensures Signals(c, bars, macd, sig, mode) == []
  {
  }

  /** Newest mode: at most one signal, stamped with the last bar, and none
      unless each line has two defined values. */
  lemma NewestIsLastBar(c: Config, bars: seq<Bar>, macd: seq<Option<real>>, sig: seq<Option<real>>)
    requires |macd| == |bars| && |sig| == |bars|
    ensures |Signals(c, bars, macd, sig, Newest)| <= 1
    ensures forall s :: s in Signals(c, bars, macd, sig, Newest) ==>
              |bars| >= 2 && s.time == bars[|bars| - 1].time && s.price == bars[|bars| - 1].close
    ensures |Compact(macd)| < 2 || |Compact(sig)| < 2 ==> Signals(c, bars, macd, sig, Newest) == []
  {
  }

  /** Full mode: the m-th signal compares merged rows idx[m] and idx[m] + 1
      and is stamped with the later one; the first merged row is never stamped,
      and every consecutive pair whose cross check fires gives a signal. */
  lemma {:induction false} FullComparesConsecutiveRows(c: Config, bars: seq<Bar>,
                                                       macd: seq<Option<real>>, sig: seq<Option<real>>)
    requires |macd| == |bars| && |sig| == |bars| && !Rejected(c, bars, macd, sig)
    ensures var rows := Merged(bars, macd, sig);
      var idx := SomeIndices(PerPair(c, rows));
      var s := Signals(c, bars, macd, sig, Full);
      |idx| == |s|
      && (forall m :: 0 <= m < |idx| ==>
            idx[m] + 1 < |rows|
            && s[m].time == rows[idx[m] + 1].bar.time && s[m].price == rows[idx[m] + 1].bar.close
            && Some((s[m].kind, s[m].details)) ==
               CheckCross(Some(rows[idx[m]].macd), Some(rows[idx[m] + 1].macd),
                          Some(rows[idx[m]].signal), Some(rows[idx[m] + 1].signal)))
      && (forall m1, m2 :: 0 <= m1 < m2 < |idx| ==> idx[m1] < idx[m2])
      && (forall j :: 0 <= j < |rows| - 1 && PairSignal(c, rows[j], rows[j + 1]).Some? ==> j in idx)
  {
    var rows := Merged(bars, macd, sig);
    var per := PerPair(c, rows);
    IndicesValues(per);
    IndicesIncrease(per);
    forall m | 0 <= m < |SomeIndices(per)|
      ensures PairSignal(c, rows[SomeIndices(per)[m]], rows[SomeIndices(per)[m] + 1])
              == Some(Compact(per)[m])
    {
    }
    FiringPairsListed(c, bars, macd, sig);
  }

  /** Every consecutive pair of merged rows whose check fires is a signalling pair. */
  lemma FiringPairsListed(c: Config, bars: seq<Bar>, macd: seq<Option<real>>, sig: seq<Option<real>>)
    requires |macd| == |bars| && |sig| == |bars|
    ensures var rows := Merged(bars, macd, sig);
      forall j :: 0 <= j < |rows| - 1 && PairSignal(c, rows[j], rows[j + 1]).Some? ==>
        j in SomeIndices(PerPair(c, rows))
  {
    var rows := Merged(bars, macd, sig);
    var per := PerPair(c, rows);
    IndicesCover(per);
    forall j | 0 <= j < |rows| - 1 && PairSignal(c, rows[j], rows[j + 1]).Some?
      ensures per[j].Some?
    {
    }
  }

  /** When both lines are defined on the last two bars, newest mode is full
      mode's verdict on its last pair of rows. */
  lemma ModesAgree(c: Config, bars: seq<Bar>, macd: seq<Option<real>>, sig: seq<Option<real>>)
    requires |macd| == |bars| && |sig| == |bars| && !Rejected(c, bars, macd, sig)
    requires |bars| >= 2
    requires macd[|bars| - 1].Some? && macd[|bars| - 2].Some?
    requires sig[|bars| - 1].Some? && sig[|bars| - 2].Some?
    ensures var per := PerPair(c, Merged(bars, macd, sig));
      per != [] && Signals(c, bars, macd, sig, Newest) == OptToSeq(per[|per| - 1])
  {
    var n := |bars|;
    var merged := seq(n, i requires 0 <= i < n => MergedAt(bars, macd, sig, i));
    CompactLastTwo(merged);
    CompactLastTwo(macd);
    CompactLastTwo(sig);
  }

  /** Rows whose MACD value is -1 before row k and +1 from row k on, with a
      zero signal line. */
  predicate StepRows(rows: seq<Row>, k: nat)
  {
    forall i :: 0 <= i < |rows| ==>
      rows[i].signal == 0.0 && rows[i].macd == (if i < k then -1.0 else 1.0)
  }

  lemma StepPairs(c: Config, rows: seq<Row>, k: nat)
    requires StepRows(rows, k) && 1 <= k < |rows|
    ensures Compact(PerPair(c, rows)) ==
            [Signal(Name(c), Buy, rows[k].bar.close, rows[k].bar.time,
                    MacdDetails(Market.GoldenCross, 1.0, 0.0))]
  {
    var per := PerPair(c, rows);
    forall j | 0 <= j < |per| && j != k - 1
      ensures per[j].None?
    {
      assert rows[j].macd == rows[j + 1].macd && rows[j].signal == rows[j + 1].signal;
      FlatPair(c, rows[j], rows[j + 1]);
    }
    assert per[k - 1] == Some(Signal(Name(c), Buy, rows[k].bar.close, rows[k].bar.time,
                                     MacdDetails(Market.GoldenCross, 1.0, 0.0))) by {
      assert rows[k - 1].macd == -1.0 && rows[k].macd == 1.0;
      assert rows[k - 1].signal == 0.0 && rows[k].signal == 0.0;
      RisingPair(c, rows[k - 1], rows[k]);
    }
    CompactSingle(per, k - 1);
  }

  /** Two rows on the same MACD and signal values never cross. */
  lemma FlatPair(c: Config, prev: Row, curr: Row)
    requires prev.macd == curr.macd && prev.signal == curr.signal
    ensures PairSignal(c, prev, curr).None?
  {
  }

  /** MACD from -1 to +1 over a zero signal line is a golden cross. */
  lemma RisingPair(c: Config, prev: Row, curr: Row)
    requires prev.macd == -1.0 && curr.macd == 1.0 && prev.signal == 0.0 && curr.signal == 0.0
    ensures PairSignal(c, prev, curr)
         == Some(Signal(Name(c), Buy, curr.bar.close, curr.bar.time, MacdDetails(Market.GoldenCross, 1.0, 0.0)))
  {
  }

  /** With both lines defined everywhere, the merged frame keeps every bar. */
  lemma {:induction false} MergedAllDefined(bars: seq<Bar>, macd: seq<Option<real>>, sig: seq<Option<real>>)
    requires |macd| == |bars| && |sig| == |bars|
    requires forall i :: 0 <= i < |bars| ==> macd[i].Some? && sig[i].Some?
    ensures |Merged(bars, macd, sig)| == |bars|
    ensures forall i :: 0 <= i < |bars| ==>
              Merged(bars, macd, sig)[i] == Row(bars[i], macd[i].value, sig[i].value)
  {
    var n := |bars|;
    var merged := seq(n, i requires 0 <= i < n => MergedAt(bars, macd, sig, i));
    CompactAllPresent(merged);
  }

  /** A MACD line at -1 before bar k and at +1 from bar k on. */
  predicate StepLine(macd: seq<Option<real>>, k: nat)
  {
    forall i :: 0 <= i < |macd| ==> macd[i] == (if i < k then Some(-1.0) else Some(1.0))
  }

  predicate ZeroLine(sig: seq<Option<real>>)
  {
    forall i :: 0 <= i < |sig| ==> sig[i] == Some(0.0)
  }

  /** A MACD line at -1 up to bar k - 1 and at +1 from bar k on, against a flat
      zero signal line, crosses exactly once: full mode gives one golden-cross
      buy, at bar k. */
  lemma SingleCrossFull(c: Config, bars: seq<Bar>, macd: seq<Option<real>>,
                        sig: seq<Option<real>>, k: nat)
    requires |macd| == |bars| && |sig| == |bars| && |bars| >= c.slow + c.signal
    requires 1 <= k < |bars| && StepLine(macd, k) && ZeroLine(sig)
    ensures Signals(c, bars, macd, sig, Full) ==
            [Signal(Name(c), Buy, bars[k].close, bars[k].time, MacdDetails(Market.GoldenCross, 1.0, 0.0))]
  {
    var rows := Merged(bars, macd, sig);
    assert !Rejected(c, bars, macd, sig) by {
      assert macd[0].Some? && sig[0].Some?;
    }
    assert Signals(c, bars, macd, sig, Full) == Compact(PerPair(c, rows));
    assert StepRows(rows, k) && rows[k].bar == bars[k] by {
      MergedAllDefined(bars, macd, sig);
      forall i | 0 <= i < |rows|
        ensures rows[i].signal == 0.0 && rows[i].macd == (if i < k then -1.0 else 1.0)
      {
        assert rows[i] == Row(bars[i], macd[i].value, sig[i].value);
      }
    }
    StepPairs(c, rows, k);
  }

  /** In the same scenario with the step on the last bar, newest mode reports
      that buy too. */
  lemma SingleCrossNewest(c: Config, bars: seq<Bar>, macd: seq<Option<real>>, sig: seq<Option<real>>)
    requires |macd| == |bars| && |sig| == |bars| && |bars| >= c.slow + c.signal && |bars| >= 2
    requires StepLine(macd, |bars| - 1) && ZeroLine(sig)
    ensures Signals(c, bars, macd, sig, Newest) ==
            [Signal(Name(c), Buy, bars[|bars| - 1].close, bars[|bars| - 1].time,
                    MacdDetails(Market.GoldenCross, 1.0, 0.0))]
  {
    var n := |bars|;
    assert macd[n - 2] == Some(-1.0) && macd[n - 1] == Some(1.0);
    assert sig[n - 2] == Some(0.0) && sig[n - 1] == Some(0.0);
    CompactLastTwo(macd);
    CompactLastTwo(sig);
    assert !AllNone(macd) by { assert macd[0].Some?; }
    assert !AllNone(sig) by { assert sig[0].Some?; }
  }
}
