/** The data that flows through the signal engine: raw bar rows as they come
    from the crawler, prepared price bars, and the signals strategies emit. */
module Market {
  import opened Common

  /** How a numeric field is written: as a Python number, as text spelling an
      integer (`"1700000000"`), or as text with a fraction or an exponent
      (`"1.5"`, `"1e9"`). `pd.to_numeric` reads all three; `astype(int)` calls
      `int()` on text, which rejects the last. */
  datatype NumForm = Number | IntegerText | DecimalText

  /** One field of a raw bar row: a value that parses as a number (with the
      number and how it is written), a JSON null (Python `None`), or text that
      does not parse as a number. */
  datatype RawField = Num(v: real, form: NumForm) | Missing | Text(s: string)

  /** A field `astype(int)` accepts: a number, or text spelling an integer. */
  predicate IntCastable(f: RawField)
    ensures IntCastable(f) ==> f.Num?
  {
    f.Num? && f.form != DecimalText
  }

  /** A raw row is `[time, open, close, high, low, volume, amount]`: open
      and close come before high and low. */
  type RawRow = seq<RawField>

  const RowWidth: nat := 7

  /** A prepared bar; `time` is in whole seconds since the epoch. */
  datatype Bar = Bar(time: int, open: real, close: real, high: real, low: real,
                     volume: real, amount: real)

  function Closes(bars: seq<Bar>): (r: seq<real>)
    ensures |r| == |bars|
    ensures forall i :: 0 <= i < |bars| ==> r[i] == bars[i].close
  {
    seq(|bars|, i requires 0 <= i < |bars| => bars[i].close)
  }

  /** Python's `int(x)` on a number: truncation toward zero. */
  function Trunc(x: real): (r: int)
    ensures x >= 0.0 ==> r as real <= x < r as real + 1.0
    ensures x < 0.0 ==> r as real - 1.0 < x <= r as real
  {
    if x >= 0.0 then x.Floor else -((-x).Floor)
  }

  /** pandas builds a frame from ragged rows by padding the shorter ones with
      `None`; it fails unless the widest row has exactly the seven named columns. */
  predicate FrameShapeOk(rows: seq<RawRow>)
  {
    (forall j :: 0 <= j < |rows| ==> |rows[j]| <= RowWidth)
    && (exists j :: 0 <= j < |rows| && |rows[j]| == RowWidth)
  }

  function PadRow(row: RawRow): (r: RawRow)
    requires |row| <= RowWidth
    ensures |r| == RowWidth
    ensures r[..|row|] == row
    ensures forall k :: |row| <= k < RowWidth ==> r[k] == Missing
  {
    row + seq(RowWidth - |row|, k => Missing)
  }

  /** Bars in non-decreasing timestamp order. */
  predicate SortedByTime(bars: seq<Bar>)
  {
    forall i, j :: 0 <= i < j < |bars| ==> bars[i].time <= bars[j].time
  }

  /** Inserts `b` after every bar of `s` that is not later than it. */
  function InsertByTime(b: Bar, s: seq<Bar>): (r: seq<Bar>)
    ensures |r| == |s| + 1
    ensures r[0] == if s == [] || b.time < s[0].time then b else s[0]
  {
    if s == [] then [b]
    else if b.time < s[0].time then [b] + s
    else [s[0]] + InsertByTime(b, s[1..])
  }

  /** Inserting into a sorted sequence keeps it sorted. */
  lemma {:induction false} InsertSorted(b: Bar, s: seq<Bar>)
    requires SortedByTime(s)
    ensures SortedByTime(InsertByTime(b, s))
  {
    if s != [] && b.time >= s[0].time {
      var rest := InsertByTime(b, s[1..]);
      InsertSorted(b, s[1..]);
      assert s[0].time <= rest[0].time;
      assert InsertByTime(b, s) == [s[0]] + rest;
    }
  }

  /** Inserting adds exactly `b`. */
  lemma {:induction false} InsertAdds(b: Bar, s: seq<Bar>)
    ensures multiset(InsertByTime(b, s)) == multiset(s) + multiset{b}
  {
    if s != [] && b.time >= s[0].time {
      var rest := InsertByTime(b, s[1..]);
      InsertAdds(b, s[1..]);
      assert multiset(s) == multiset{s[0]} + multiset(s[1..]) by {
        assert s == [s[0]] + s[1..];
      }
      assert multiset(InsertByTime(b, s)) == multiset{s[0]} + multiset(rest) by {
        assert InsertByTime(b, s) == [s[0]] + rest;
      }
    }
  }

  /** The rows in ascending timestamp order (pandas `sort_index`). */
  function SortByTime(bars: seq<Bar>): (r: seq<Bar>)
    ensures SortedByTime(r)
    ensures multiset(r) == multiset(bars)
    ensures |r| == |bars|
  {
    if bars == [] then []
    else
      var init := bars[..|bars| - 1];
      var last := bars[|bars| - 1];
      assert bars == init + [last];
      InsertSorted(last, SortByTime(init));
      InsertAdds(last, SortByTime(init));
      InsertByTime(last, SortByTime(init))
  }

  datatype SignalType = Buy | Sell

  datatype CrossType = GoldenCross | DeathCross

  /** The strategy-specific `details` record of a signal; indicator values are
      exact, where the source rounds them to two decimals for display. */
  datatype Details =
    | BollingerDetails(closePrice: real, highPrice: real, lowPrice: real,
                       upperBand: real, middleBand: real, lowerBand: real)
    | VegasDetails(closePrice: real, emaFast: real, emaMedium: real, emaSlow: real,
                   isUptrend: bool)
    | RsiDetails(rsiValue: real, threshold: int)
    | MacdDetails(crossType: CrossType, macdLine: real, signalLine: real)
    | CsMaBelowMa7(price: real, ma7: real)       // 'Price crosses below MA7'
    | CsMaGoldenCross(ma7: real, ma56: real)     // 'MA7 crosses above MA56'
    | CsMaAboveMa112(price: real, ma112: real)   // 'Price crosses above MA112'

  /** A detected signal, stamped with the timestamp of the bar it belongs to. */
  datatype Signal = Signal(strategy: string, kind: SignalType, price: real,
                           time: int, details: Details)

  /** The `mode` argument of `detect`: 'newest', 'full', or anything else. */
  datatype Mode = Newest | Full | OtherMode
}
