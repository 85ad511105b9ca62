/** Indicator definitions of `TechnicalIndicators`: Bollinger bands over a
    rolling window of closes, the three exponential moving averages of the
    Vegas tunnel, and the strict preparation of raw rows into sorted bars. */
module Indicators {
  import opened Common
  import opened Market

  /** A rolling-window length of at least one bar. A window of 0 (all-NaN
      results in pandas) and a negative window (a `ValueError`) are outside
      this type. */
  type Window = n: nat | n >= 1 witness 1

  /** The last `p` values up to and including position `i`. */
  function WindowAt(xs: seq<real>, i: nat, p: Window): (w: seq<real>)
    requires p - 1 <= i < |xs|
    ensures |w| == p
    ensures forall k :: 0 <= k < p ==> w[k] == xs[i + 1 - p + k]
  {
    xs[i + 1 - p..i + 1]
  }

  function Mean(w: seq<real>): real
    requires w != []
  {
    Sum(w) / |w| as real
  }

  /** `close.rolling(window=p).mean()`: undefined until a full window exists. */
  function RollingMean(xs: seq<real>, p: Window): (r: seq<Option<real>>)
    ensures |r| == |xs|
  {
    seq(|xs|, i requires 0 <= i < |xs| =>
      if i + 1 < p then None else Some(Mean(WindowAt(xs, i, p))))
  }

  function SquaredDeviations(w: seq<real>, m: real): (d: seq<real>)
    ensures |d| == |w|
  {
    seq(|w|, k requires 0 <= k < |w| => (w[k] - m) * (w[k] - m))
  }

  /** The sample variance (divisor n - 1, pandas' default `ddof=1`). */
  function SampleVariance(w: seq<real>): real
    requires |w| >= 2
  {
    Sum(SquaredDeviations(w, Mean(w))) / (|w| - 1) as real
  }

  /** `sd` is `close.rolling(window=p).std()`: defined exactly where a full
      window of at least two values exists, non-negative, and squaring to the
      sample variance of that window. The square root itself is not computed. */
  predicate IsRollingStd(xs: seq<real>, p: Window, sd: seq<Option<real>>)
  {
    |sd| == |xs|
    && forall i :: 0 <= i < |xs| ==>
         (sd[i].Some? <==> p >= 2 && i + 1 >= p)
         && (sd[i].Some? ==> sd[i].value >= 0.0
                             && sd[i].value * sd[i].value == SampleVariance(WindowAt(xs, i, p)))
  }

  /** `a + b * k` on possibly undefined values: NaN in, NaN out. */
  function Offset(a: Option<real>, b: Option<real>, k: real): Option<real>
  {
    if a.Some? && b.Some? then Some(a.value + b.value * k) else None
  }

  datatype Bands = Bands(middle: seq<Option<real>>, upper: seq<Option<real>>,
                         lower: seq<Option<real>>)

  /** `calculate_bollinger_bands`: middle = rolling mean, upper/lower = middle
      plus/minus `k` standard deviations. A std series that does not line up
      with the closes stands for a failing computation, whose handler returns
      three empty series. The failure is kept as those three empty series,
      because that is the value the callers receive: for them an empty band
      is one with no defined entry. */
  function BollingerBands(xs: seq<real>, sd: seq<Option<real>>, p: Window, k: int): (b: Bands)
    ensures |sd| == |xs| ==> |b.middle| == |xs| && |b.upper| == |xs| && |b.lower| == |xs|
    ensures |sd| != |xs| ==> b == Bands([], [], [])
    ensures |b.middle| == |b.upper| == |b.lower|
    ensures forall i :: 0 <= i < |b.upper| && (b.upper[i].Some? || b.lower[i].Some?) ==>
              b.middle[i].Some?
  {
    if |sd| != |xs| then Bands([], [], [])
    else
      var middle := RollingMean(xs, p);
      Bands(middle,
            seq(|xs|, i requires 0 <= i < |xs| => Offset(middle[i], sd[i], k as real)),
            seq(|xs|, i requires 0 <= i < |xs| => Offset(middle[i], sd[i], -(k as real))))
  }

  /** Warm-up: the middle band is defined from index p - 1 on, and a genuine
      rolling std makes upper and lower defined exactly where it is. */
  lemma BollingerWarmUp(xs: seq<real>, sd: seq<Option<real>>, p: Window, k: int, i: nat)
    requires IsRollingStd(xs, p, sd) && i < |xs|
    ensures BollingerBands(xs, sd, p, k).middle[i].Some? <==> i + 1 >= p
    ensures BollingerBands(xs, sd, p, k).upper[i].Some? <==> p >= 2 && i + 1 >= p
    ensures BollingerBands(xs, sd, p, k).lower[i].Some? <==> p >= 2 && i + 1 >= p
    ensures BollingerBands(xs, sd, p, k).middle[i].Some? ==>
              BollingerBands(xs, sd, p, k).middle[i].value == Mean(xs[i + 1 - p..i + 1])
  {
  }

  /** The bands are symmetric about the middle band, `k` deviations away. */
  lemma BollingerSymmetric(xs: seq<real>, sd: seq<Option<real>>, p: Window, k: int, i: nat)
    requires |sd| == |xs| && i < |xs|
    requires BollingerBands(xs, sd, p, k).upper[i].Some?
    ensures var b := BollingerBands(xs, sd, p, k);
      b.middle[i].Some? && b.lower[i].Some? && sd[i].Some?
      && b.upper[i].value - b.middle[i].value == k as real * sd[i].value
      && b.middle[i].value - b.lower[i].value == k as real * sd[i].value
  {
  }

  /** With a non-negative multiplier, lower <= middle <= upper wherever defined. */
  lemma BollingerOrdered(xs: seq<real>, sd: seq<Option<real>>, p: Window, k: int, i: nat)
    requires IsRollingStd(xs, p, sd) && k >= 0 && i < |xs|
    requires BollingerBands(xs, sd, p, k).upper[i].Some?
    ensures var b := BollingerBands(xs, sd, p, k);
      b.lower[i].value <= b.middle[i].value <= b.upper[i].value
  {
    var s := sd[i].value;
    assert s >= 0.0;
    MulNonNeg(s, k as real);
  }

  lemma MulNonNeg(a: real, b: real)
    requires a >= 0.0 && b >= 0.0
    ensures a * b >= 0.0
  {
  }

  /** The middle band lies between the smallest and largest close of its window. */
  lemma MiddleWithinWindow(xs: seq<real>, p: Window, i: nat)
    requires p - 1 <= i < |xs|
    ensures RollingMean(xs, p)[i].Some?
    ensures Min(WindowAt(xs, i, p)) <= RollingMean(xs, p)[i].value <= Max(WindowAt(xs, i, p))
  {
    MeanBetweenMinMax(WindowAt(xs, i, p));
  }

  lemma MeanOfConstant(w: seq<real>, c: real)
    requires w != [] && forall k :: 0 <= k < |w| ==> w[k] == c
    ensures Mean(w) == c
  {
    SumConstant(w, c);
  }

  lemma MulPositive(a: real, b: real)
    requires a > 0.0 && b > 0.0
    ensures a * b > 0.0
  {
  }

  lemma ProductZero(a: real, b: real)
    requires a >= 0.0 && b >= 0.0 && a * b == 0.0
    ensures a == 0.0 || b == 0.0
  {
    if a > 0.0 && b > 0.0 {
      MulPositive(a, b);
    }
  }

  /** A window of identical closes has zero deviation, so all three bands
      collapse onto that close. */
  lemma {:induction false} ConstantWindowBands(xs: seq<real>, sd: seq<Option<real>>, p: Window,
                                               k: int, i: nat, c: real)
    requires IsRollingStd(xs, p, sd) && p >= 2 && p - 1 <= i < |xs|
    requires forall j :: i + 1 - p <= j <= i ==> xs[j] == c
    ensures var b := BollingerBands(xs, sd, p, k);
      sd[i] == Some(0.0)
      && b.middle[i] == Some(c) && b.upper[i] == Some(c) && b.lower[i] == Some(c)
  {
    var w := WindowAt(xs, i, p);
    MeanOfConstant(w, c);
    var d := SquaredDeviations(w, Mean(w));
    assert forall j :: 0 <= j < |d| ==> d[j] == 0.0;
    SumConstant(d, 0.0);
    assert SampleVariance(w) == 0.0;
    ProductZero(sd[i].value, sd[i].value);
  }

  /** The smoothing factor `2 / (span + 1)` of `ewm(span=...)`. */
  function Alpha(span: nat): (a: real)
    requires span >= 1
    ensures 0.0 < a <= 1.0
  {
    2.0 / (span as real + 1.0)
  }

  /** `ewm(alpha=a, adjust=False).mean()`: seeded with the first value, then
      each step moves the previous average toward the new value by `a`. */
  function Ema(xs: seq<real>, a: real): (r: seq<real>)
    ensures |r| == |xs|
    ensures |xs| > 0 ==> r[0] == xs[0]
  {
    if |xs| <= 1 then xs
    else
      var p := Ema(xs[..|xs| - 1], a);
      p + [Toward(p[|p| - 1], xs[|xs| - 1], a)]
  }

  /** One smoothing step: `p` moved toward `x` by the fraction `a`. */
  function Toward(p: real, x: real, a: real): real
  {
    p + a * (x - p)
  }

  /** An average is a function of the values seen so far only. */
  lemma {:induction false} EmaPrefix(xs: seq<real>, a: real, k: nat)
    requires k <= |xs|
    ensures Ema(xs, a)[..k] == Ema(xs[..k], a)
    decreases |xs|
  {
    if k < |xs| && |xs| > 1 {
      EmaPrefix(xs[..|xs| - 1], a, k);
      assert xs[..|xs| - 1][..k] == xs[..k];
    } else if k == |xs| {
      assert xs[..k] == xs;
    }
  }

  /** The pointwise recurrence `ema[t] = ema[t-1] + a * (x[t] - ema[t-1])`. */
  lemma EmaStep(xs: seq<real>, a: real, t: nat)
    requires 0 < t < |xs|
    ensures Ema(xs, a)[t] == Toward(Ema(xs, a)[t - 1], xs[t], a)
  {
    var pre := xs[..t + 1];
    var p := Ema(xs[..t], a);
    assert pre[..|pre| - 1] == xs[..t];
    EmaLast(pre, a);
    var e := p[t - 1];
    assert Ema(pre, a)[t] == Toward(e, xs[t], a);
    EmaPrefix(xs, a, t + 1);
    assert Ema(xs, a)[t] == Ema(pre, a)[t];
    EmaPrefix(xs, a, t);
    assert Ema(xs, a)[t - 1] == e;
  }

  /** The last average moves the one before it toward the last value. */
  lemma EmaLast(xs: seq<real>, a: real)
    requires |xs| > 1
    ensures Ema(xs, a) == Ema(xs[..|xs| - 1], a)
                          + [Toward(Ema(xs[..|xs| - 1], a)[|xs| - 2], xs[|xs| - 1], a)]
  {
  }

  /** Moving `p` toward `x` by a fraction `a` in (0, 1] stays between any
      bounds on both. */
  lemma StepBetween(p: real, x: real, a: real, lo: real, hi: real)
    requires 0.0 < a <= 1.0 && lo <= p <= hi && lo <= x <= hi
    ensures lo <= Toward(p, x, a) <= hi
  {
    assert p + a * (x - p) - lo == (1.0 - a) * (p - lo) + a * (x - lo);
    MulNonNeg(1.0 - a, p - lo);
    MulNonNeg(a, x - lo);
    assert hi - (p + a * (x - p)) == (1.0 - a) * (hi - p) + a * (hi - x);
    MulNonNeg(1.0 - a, hi - p);
    MulNonNeg(a, hi - x);
  }

  /** Every step is a convex combination, so each average stays within any
      bounds that hold for the values seen so far. */
  lemma {:induction false} EmaBounded(xs: seq<real>, a: real, lo: real, hi: real, t: nat)
    requires 0.0 < a <= 1.0 && t < |xs|
    requires forall j :: 0 <= j <= t ==> lo <= xs[j] <= hi
    ensures lo <= Ema(xs, a)[t] <= hi
  {
    if t > 0 {
      EmaBounded(xs, a, lo, hi, t - 1);
      EmaStep(xs, a, t);
      StepBetween(Ema(xs, a)[t - 1], xs[t], a, lo, hi);
    }
  }

  /** Each average lies between the minimum and maximum close seen so far. */
  lemma EmaWithinRange(xs: seq<real>, span: nat, t: nat)
    requires span >= 1 && t < |xs|
    ensures Min(xs[..t + 1]) <= Ema(xs, Alpha(span))[t] <= Max(xs[..t + 1])
  {
    var seen := xs[..t + 1];
    assert forall j :: 0 <= j <= t ==> xs[j] == seen[j];
    EmaBounded(xs, Alpha(span), Min(seen), Max(seen), t);
  }

  datatype Tunnel = Tunnel(ema1: seq<real>, ema2: seq<real>, ema3: seq<real>)

  /** `calculate_vegas_tunnel`: three averages of the closes. pandas rejects a
      span below one; the handler then returns three empty series. */
  function VegasTunnel(xs: seq<real>, span1: nat, span2: nat, span3: nat): (t: Tunnel)
    ensures span1 >= 1 && span2 >= 1 && span3 >= 1 ==>
              |t.ema1| == |xs| && |t.ema2| == |xs| && |t.ema3| == |xs|
    ensures !(span1 >= 1 && span2 >= 1 && span3 >= 1) ==> t == Tunnel([], [], [])
  {
    if span1 >= 1 && span2 >= 1 && span3 >= 1 then
      Tunnel(Ema(xs, Alpha(span1)), Ema(xs, Alpha(span2)), Ema(xs, Alpha(span3)))
    else Tunnel([], [], [])
  }

  /** `astype(int)` on the time column: a number truncates toward zero, text
      spelling an integer is that integer, and anything else fails. */
  function ParseTime(f: RawField): (r: Option<int>)
    ensures r.Some? <==> IntCastable(f)
    ensures r.Some? ==> r.value == Trunc(f.v)
  {
    match f
    case Num(v, form) => if form == DecimalText then None else Some(Trunc(v))
    case _ => None
  }

  /** `pd.to_numeric` without coercion: text that is not a number fails. */
  function ParseStrict(f: RawField): Option<real>
  {
    match f
    case Num(v, _) => Some(v)
    case _ => None
  }

  /** Reads `[time, open, close, high, low, volume, amount]` into a bar. */
  function ParseRowStrict(row: RawRow): (b: Option<Bar>)
    requires |row| == RowWidth
    ensures b.Some? <==> IntCastable(row[0]) && forall k :: 0 <= k < RowWidth ==> row[k].Num?
    ensures b.Some? ==> b.value == Bar(Trunc(row[0].v), row[1].v, row[2].v, row[3].v,
                                       row[4].v, row[5].v, row[6].v)
  {
    var t := ParseTime(row[0]);
    var o, c, h, l := ParseStrict(row[1]), ParseStrict(row[2]), ParseStrict(row[3]), ParseStrict(row[4]);
    var vol, amt := ParseStrict(row[5]), ParseStrict(row[6]);
    if t.Some? && o.Some? && c.Some? && h.Some? && l.Some? && vol.Some? && amt.Some? then
      Some(Bar(t.value, o.value, c.value, h.value, l.value, vol.value, amt.value))
    else None
  }

  function ParsedRows(raw: seq<RawRow>): (r: seq<Option<Bar>>)
    requires FrameShapeOk(raw)
    ensures |r| == |raw|
  {
    seq(|raw|, j requires 0 <= j < |raw| => ParseRowStrict(PadRow(raw[j])))
  }

  /** `prepare_dataframe`: the rows as bars sorted ascending by time, or the
      empty frame when the frame cannot be built or a field fails to parse. */
  function PrepareFrame(raw: seq<RawRow>): (bars: seq<Bar>)
    ensures SortedByTime(bars)
    ensures |bars| <= |raw|
  {
    if raw == [] || !FrameShapeOk(raw) then []
    else
      var parsed := ParsedRows(raw);
      if exists j :: 0 <= j < |parsed| && parsed[j].None? then []
      else SortByTime(Compact(parsed))
  }

  /** Any field that is not a number, or a time that `astype(int)` rejects
      (text with a fraction or an exponent), makes the whole preparation fail. */
  lemma PrepareFrameRejects(raw: seq<RawRow>, j: nat, k: nat)
    requires j < |raw| && k < |raw[j]|
    requires if k == 0 then !IntCastable(raw[j][0]) else !raw[j][k].Num?
    ensures PrepareFrame(raw) == []
  {
    if FrameShapeOk(raw) {
      assert PadRow(raw[j])[k] == raw[j][k];
      assert ParsedRows(raw)[j].None?;
    }
  }

  /** On well-formed input every row becomes one bar, fields are read in the
      order time, open, close, high, low, volume, amount, and the result is a
      time-sorted permutation of the rows. */
  lemma {:induction false} PrepareFrameAccepts(raw: seq<RawRow>)
    requires raw != []
    requires forall j :: 0 <= j < |raw| ==> |raw[j]| == RowWidth
    requires forall j, k :: 0 <= j < |raw| && 0 <= k < RowWidth ==> raw[j][k].Num?
    requires forall j :: 0 <= j < |raw| ==> IntCastable(raw[j][0])
    ensures multiset(PrepareFrame(raw)) == multiset(NumericRows(raw)) && |PrepareFrame(raw)| == |raw|
  {
    assert FrameShapeOk(raw) by {
      assert |raw[0]| == RowWidth;
    }
    var parsed := ParsedRows(raw);
    var rows := NumericRows(raw);
    forall j | 0 <= j < |raw|
      ensures parsed[j] == Some(rows[j])
    {
      NumericRowParses(raw[j]);
    }
    assert PrepareFrame(raw) == SortByTime(Compact(parsed)) by {
      assert !exists j :: 0 <= j < |parsed| && parsed[j].None?;
    }
    CompactValues(parsed, rows);
  }

  /** Each row read as `[time, open, close, high, low, volume, amount]`, in input order. */
  function NumericRows(raw: seq<RawRow>): (r: seq<Bar>)
    requires forall j :: 0 <= j < |raw| ==> |raw[j]| == RowWidth
    requires forall j, k :: 0 <= j < |raw| && 0 <= k < RowWidth ==> raw[j][k].Num?
    ensures |r| == |raw|
    ensures forall j :: 0 <= j < |raw| ==>
              r[j] == Bar(Trunc(raw[j][0].v), raw[j][1].v, raw[j][2].v, raw[j][3].v,
                          raw[j][4].v, raw[j][5].v, raw[j][6].v)
  {
    seq(|raw|, j requires 0 <= j < |raw| =>
          Bar(Trunc(raw[j][0].v), raw[j][1].v, raw[j][2].v, raw[j][3].v,
              raw[j][4].v, raw[j][5].v, raw[j][6].v))
  }

  /** A full row of numbers parses to the bar of those numbers. */
  lemma NumericRowParses(row: RawRow)
    requires |row| == RowWidth && forall k :: 0 <= k < RowWidth ==> row[k].Num?
    requires IntCastable(row[0])
    ensures ParseRowStrict(PadRow(row))
         == Some(Bar(Trunc(row[0].v), row[1].v, row[2].v, row[3].v, row[4].v, row[5].v, row[6].v))
  {
    assert PadRow(row) == row;
  }
}
