/** `CsMaStrategy`: three moving averages (7, 56 and 112 by default). A close
    crossing below the fast average is a sell and wins outright; buys need the
    medium average above the slow one, and then either a golden cross of the
    fast over the medium average or the close crossing above the slow one.
    The averages are inputs: their calculator is not part of this model. */
module CsMaStrategy {
  import opened Common
  import opened Market
  import opened Text

  datatype Config = Config(fast: nat, medium: nat, slow: nat)

  /** `CsMaStrategy_{fast}_{medium}_{slow}`. */
  function Name(c: Config): string
  {
    "CsMaStrategy_" + NatToString(c.fast) + "_" + NatToString(c.medium) + "_" + NatToString(c.slow)
  }

  /** The values of close and the three averages at one bar. */
  datatype Point = Point(close: real, ma7: real, ma56: real, ma112: real)

  predicate SellCross(p: Point, q: Point)
  {
    p.close > p.ma7 && q.close < q.ma7
  }

  predicate TrendUp(q: Point)
  {
    q.ma56 > q.ma112
  }

  predicate GoldenCross(p: Point, q: Point)
  {
    p.ma7 < p.ma56 && q.ma7 > q.ma56
  }

  predicate ReboundCross(p: Point, q: Point)
  {
    p.close < p.ma112 && q.close > q.ma112
  }

  /** `_check_signal_condition` on the previous point `p` and the current one `q`. */
  function CheckSignal(p: Point, q: Point): (r: Option<(SignalType, Details)>)
    ensures r.Some? && r.value.0 == Sell <==> SellCross(p, q)
    ensures r.Some? && r.value.0 == Buy <==>
              !SellCross(p, q) && TrendUp(q) && (GoldenCross(p, q) || ReboundCross(p, q))
    ensures r.Some? && r.value.0 == Sell ==> r.value.1 == CsMaBelowMa7(q.close, q.ma7)
    ensures r.Some? && r.value.0 == Buy && GoldenCross(p, q) ==>
              r.value.1 == CsMaGoldenCross(q.ma7, q.ma56)
    ensures r.Some? && r.value.0 == Buy && !GoldenCross(p, q) ==>
              r.value.1 == CsMaAboveMa112(q.close, q.ma112)
  {
    if SellCross(p, q) then Some((Sell, CsMaBelowMa7(q.close, q.ma7)))
    else if TrendUp(q) then
      if GoldenCross(p, q) then Some((Buy, CsMaGoldenCross(q.ma7, q.ma56)))
      else if ReboundCross(p, q) then Some((Buy, CsMaAboveMa112(q.close, q.ma112)))
      else None
    else None
  }

  /** A bar of the merged frame where all three averages are defined. */
  datatype Row = Row(bar: Bar, point: Point)

  function MergedAt(bars: seq<Bar>, ma7: seq<Option<real>>, ma56: seq<Option<real>>,
                    ma112: seq<Option<real>>, i: nat): Option<Row>
    requires |ma7| == |bars| && |ma56| == |bars| && |ma112| == |bars| && i < |bars|
  {
    if ma7[i].Some? && ma56[i].Some? && ma112[i].Some? then
      Some(Row(bars[i], Point(bars[i].close, ma7[i].value, ma56[i].value, ma112[i].value)))
    else None
  }

  /** The merged frame after `dropna`. */
  function Merged(bars: seq<Bar>, ma7: seq<Option<real>>, ma56: seq<Option<real>>,
                  ma112: seq<Option<real>>): seq<Row>
    requires |ma7| == |bars| && |ma56| == |bars| && |ma112| == |bars|
  {
    Compact(seq(|bars|, i requires 0 <= i < |bars| => MergedAt(bars, ma7, ma56, ma112, i)))
  }

  function PairSignal(c: Config, prev: Row, curr: Row): (s: Option<Signal>)
    ensures s.Some? ==> s.value.time == curr.bar.time && s.value.price == curr.bar.close
  {
    match CheckSignal(prev.point, curr.point)
    case None => None
    case Some((k, d)) => Some(Signal(Name(c), k, curr.bar.close, curr.bar.time, d))
  }

  /** Entry `j` compares merged row `j` with row `j + 1`. */
  function PerPair(c: Config, rows: seq<Row>): seq<Option<Signal>>
  {
    Pairwise(rows, (prev: Row, curr: Row) => PairSignal(c, prev, curr))
  }

  predicate AllNone(xs: seq<Option<real>>)
  {
    forall i :: 0 <= i < |xs| ==> xs[i].None?
  }

  predicate Rejected(c: Config, bars: seq<Bar>, ma7: seq<Option<real>>, ma56: seq<Option<real>>,
                     ma112: seq<Option<real>>)
  {
    bars == [] || |bars| < c.slow || AllNone(ma7) || AllNone(ma56) || AllNone(ma112)
  }

  /** The point of bar `i`, when all three averages are defined there. */
  function PointAt(bars: seq<Bar>, ma7: seq<Option<real>>, ma56: seq<Option<real>>,
                   ma112: seq<Option<real>>, i: nat): Option<Point>
    requires |ma7| == |bars| && |ma56| == |bars| && |ma112| == |bars| && i < |bars|
  {
    if ma7[i].Some? && ma56[i].Some? && ma112[i].Some? then
      Some(Point(bars[i].close, ma7[i].value, ma56[i].value, ma112[i].value))
    else None
  }

  /** Newest mode: the last two bars, which must both be fully defined. */
  function NewestSignals(c: Config, bars: seq<Bar>, ma7: seq<Option<real>>, ma56: seq<Option<real>>,
                         ma112: seq<Option<real>>): (r: seq<Signal>)
    requires |ma7| == |bars| && |ma56| == |bars| && |ma112| == |bars|
    ensures |r| <= 1
  {
    var n := |bars|;
    if n < 2 then []
    else
      var p, q := PointAt(bars, ma7, ma56, ma112, n - 2), PointAt(bars, ma7, ma56, ma112, n - 1);
      if p.None? || q.None? then []
      else
        match CheckSignal(p.value, q.value)
        case None => []
        case Some((k, d)) => [Signal(Name(c), k, bars[n - 1].close, bars[n - 1].time, d)]
  }

  /** What `detect` returns, mode by mode (an unknown mode falls through both
      branches and returns the empty list). */
  function Signals(c: Config, bars: seq<Bar>, ma7: seq<Option<real>>, ma56: seq<Option<real>>,
                   ma112: seq<Option<real>>, mode: Mode): seq<Signal>
    requires |ma7| == |bars| && |ma56| == |bars| && |ma112| == |bars|
  {
    if Rejected(c, bars, ma7, ma56, ma112) then []
    else
      match mode
      case Newest => NewestSignals(c, bars, ma7, ma56, ma112)
      case Full => Compact(PerPair(c, Merged(bars, ma7, ma56, ma112)))
      case OtherMode => []
  }

  /** `detect`. */
  method Detect(c: Config, bars: seq<Bar>, ma7: seq<Option<real>>, ma56: seq<Option<real>>,
                ma112: seq<Option<real>>, mode: Mode) returns (signals: seq<Signal>)
    requires |ma7| == |bars| && |ma56| == |bars| && |ma112| == |bars|
    ensures signals == Signals(c, bars, ma7, ma56, ma112, mode)
  {
    if bars == [] || |bars| < c.slow {
      return [];
    }
    if AllNone(ma7) || AllNone(ma56) || AllNone(ma112) {
      return [];
    }
    signals := [];
    if mode == Newest {
      var n := |bars|;
      if n < 2 {
        return [];
      }
      var p := PointAt(bars, ma7, ma56, ma112, n - 2);
      var q := PointAt(bars, ma7, ma56, ma112, n - 1);
      if p.None? || q.None? {
        return [];
      }
      var r := CheckSignal(p.value, q.value);
      if r.Some? {
        signals := [Signal(Name(c), r.value.0, bars[n - 1].close, bars[n - 1].time, r.value.1)];
      }
    } else if mode == Full {
      var rows := Merged(bars, ma7, ma56, ma112);
      signals := ScanPairs(c, rows);
    }
  }

  /** The full-mode loop from the second merged row on. */
  method ScanPairs(c: Config, rows: seq<Row>) returns (signals: seq<Signal>)
    ensures signals == Compact(PerPair(c, rows))
  {
    ghost var per := PerPair(c, rows);
    signals := [];
    if rows == [] {
      return;
    }
    assert |per| == |rows| - 1;
    var i := 1;
    while i < |rows|
      invariant 1 <= i <= |rows|
      invariant signals == Compact(per[..i - 1])
    {
      ScanStep(c, rows, i);
      var s := PairSignal(c, rows[i - 1], rows[i]);
      if s.Some? {
        signals := signals + [s.value];
      }
      i := i + 1;
    }
    assert per[..|rows| - 1] == per;
  }

  /** One more pair adds that pair's signal, if any, to the compacted prefix. */
  lemma ScanStep(c: Config, rows: seq<Row>, i: nat)
    requires 1 <= i < |rows|
    ensures Compact(PerPair(c, rows)[..i]) ==
            Compact(PerPair(c, rows)[..i - 1]) + OptToSeq(PairSignal(c, rows[i - 1], rows[i]))
  {
    var per := PerPair(c, rows);
    CompactPrefixStep(per, i - 1);
    assert per[i - 1] == PairSignal(c, rows[i - 1], rows[i]);
  }


  /** Sell has the highest priority: when the close crosses below the fast
      average no buy rule is looked at. */
  lemma SellWins(p: Point, q: Point)
    requires SellCross(p, q)
    ensures CheckSignal(p, q) == Some((Sell, CsMaBelowMa7(q.close, q.ma7)))
  {
  }

  /** Without the trend filter no buy is possible. */
  lemma NoBuyAgainstTrend(p: Point, q: Point)
    requires !TrendUp(q)
    ensures CheckSignal(p, q).None? || CheckSignal(p, q).value.0 == Sell
  {
  }

  /** Too few bars, or an average with no value, give no signals; so does an
      unknown mode. */
  lemma Guards(c: Config, bars: seq<Bar>, ma7: seq<Option<real>>, ma56: seq<Option<real>>,
               ma112: seq<Option<real>>, mode: Mode)
    requires |ma7| == |bars| && |ma56| == |bars| && |ma112| == |bars|
    requires |bars| < c.slow || AllNone(ma7) || AllNone(ma56) || AllNone(ma112) || mode == OtherMode
    ensures Signals(c, bars, ma7, ma56, ma112, mode) == []
  {
  }

  /** Newest mode: at most one signal, for the last bar; none with fewer than
      two bars or an undefined average on either of the last two. */
  lemma NewestIsLastBar(c: Config, bars: seq<Bar>, ma7: seq<Option<real>>, ma56: seq<Option<real>>,
                        ma112: seq<Option<real>>)
    requires |ma7| == |bars| && |ma56| == |bars| && |ma112| == |bars|
    ensures |Signals(c, bars, ma7, ma56, ma112, Newest)| <= 1
    ensures forall s :: s in Signals(c, bars, ma7, ma56, ma112, Newest) ==>
              |bars| >= 2 && s.time == bars[|bars| - 1].time && s.price == bars[|bars| - 1].close
    ensures |bars| >= 2 && (exists i :: |bars| - 2 <= i < |bars| &&
                             (ma7[i].None? || ma56[i].None? || ma112[i].None?)) ==>
              Signals(c, bars, ma7, ma56, ma112, Newest) == []
  {
  }

  /** Full mode: the m-th signal compares merged rows idx[m] and idx[m] + 1 and
      is stamped with the later; evaluation starts at the second merged row,
      and every consecutive pair whose check fires gives a signal. */
  lemma {:induction false} FullComparesConsecutiveRows(c: Config, bars: seq<Bar>,
      ma7: seq<Option<real>>, ma56: seq<Option<real>>, ma112: seq<Option<real>>)
    requires |ma7| == |bars| && |ma56| == |bars| && |ma112| == |bars|
    requires !Rejected(c, bars, ma7, ma56, ma112)
    ensures var rows := Merged(bars, ma7, ma56, ma112);
      var idx := SomeIndices(PerPair(c, rows));
      var s := Signals(c, bars, ma7, ma56, ma112, Full);
      |idx| == |s|
      && (forall m :: 0 <= m < |idx| ==>
            idx[m] + 1 < |rows|
            && s[m].time == rows[idx[m] + 1].bar.time && s[m].price == rows[idx[m] + 1].bar.close
            && Some((s[m].kind, s[m].details)) == CheckSignal(rows[idx[m]].point, rows[idx[m] + 1].point))
      && (forall m1, m2 :: 0 <= m1 < m2 < |idx| ==> idx[m1] < idx[m2])
      && (forall j :: 0 <= j < |rows| - 1 && PairSignal(c, rows[j], rows[j + 1]).Some? ==> j in idx)
  {
    var rows := Merged(bars, ma7, ma56, ma112);
    var per := PerPair(c, rows);
    var idx := SomeIndices(per);
    var s := Signals(c, bars, ma7, ma56, ma112, Full);
    assert s == Compact(per);
    IndicesValues(per);
    IndicesIncrease(per);
    forall m | 0 <= m < |idx|
      ensures idx[m] + 1 < |rows|
      ensures s[m].time == rows[idx[m] + 1].bar.time && s[m].price == rows[idx[m] + 1].bar.close
      ensures Some((s[m].kind, s[m].details)) == CheckSignal(rows[idx[m]].point, rows[idx[m] + 1].point)
    {
      var j := idx[m];
      assert per[j] == Some(s[m]);
      assert per[j] == PairSignal(c, rows[j], rows[j + 1]);
    }
    FiringPairsListed(c, bars, ma7, ma56, ma112);
  }

  /** Every consecutive pair of merged rows whose check fires is a signalling pair. */
  lemma FiringPairsListed(c: Config, bars: seq<Bar>, ma7: seq<Option<real>>,
                          ma56: seq<Option<real>>, ma112: seq<Option<real>>)
    requires |ma7| == |bars| && |ma56| == |bars| && |ma112| == |bars|
    ensures var rows := Merged(bars, ma7, ma56, ma112);
      forall j :: 0 <= j < |rows| - 1 && PairSignal(c, rows[j], rows[j + 1]).Some? ==>
        j in SomeIndices(PerPair(c, rows))
  {
    var rows := Merged(bars, ma7, ma56, ma112);
    var per := PerPair(c, rows);
    IndicesCover(per);
    forall j | 0 <= j < |rows| - 1 && PairSignal(c, rows[j], rows[j + 1]).Some?
      ensures per[j].Some?
    {
    }
  }

  /** Every merged row carries the close of its own bar. */
  lemma {:induction false} MergedRowsAreBars(bars: seq<Bar>, ma7: seq<Option<real>>,
      ma56: seq<Option<real>>, ma112: seq<Option<real>>)
    requires |ma7| == |bars| && |ma56| == |bars| && |ma112| == |bars|
    ensures forall r :: r in Merged(bars, ma7, ma56, ma112) ==> r.point.close == r.bar.close && r.bar in bars
  {
    var merged := seq(|bars|, i requires 0 <= i < |bars| => MergedAt(bars, ma7, ma56, ma112, i));
    forall r: Row | r in Compact(merged)
      ensures r.point.close == r.bar.close && r.bar in bars
    {
      CompactMember(merged, r);
    }
  }

  /** When the last two bars are fully defined, newest mode is full mode's
      verdict on its last pair of merged rows. */
  lemma ModesAgree(c: Config, bars: seq<Bar>, ma7: seq<Option<real>>, ma56: seq<Option<real>>,
                   ma112: seq<Option<real>>)
    requires |ma7| == |bars| && |ma56| == |bars| && |ma112| == |bars|
    requires !Rejected(c, bars, ma7, ma56, ma112) && |bars| >= 2
    requires PointAt(bars, ma7, ma56, ma112, |bars| - 1).Some?
    requires PointAt(bars, ma7, ma56, ma112, |bars| - 2).Some?
    ensures var per := PerPair(c, Merged(bars, ma7, ma56, ma112));
      per != [] && Signals(c, bars, ma7, ma56, ma112, Newest) == OptToSeq(per[|per| - 1])
  {
    var n := |bars|;
    var merged := seq(n, i requires 0 <= i < n => MergedAt(bars, ma7, ma56, ma112, i));
    CompactLastTwo(merged);
  }
}
