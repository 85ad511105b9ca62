/** `utils/formatter.py`: strategy shorthands and the plain-text signal table,
    whose columns are padded by display width (CJK ideographs count double). */
module Formatter {
  import opened Common
  import opened Text
  import BollingerStrategy
  import VegasStrategy
  import RsiStrategy
  import MacdStrategy
  import CsMaStrategy

  /** `get_strategy_shorthand`: the first of vegas, macd, bollinger, rsi and
      csma found in the lower-cased name. */
  function Shorthand(name: string): (r: string)
    ensures r in ShorthandOrder
    ensures var low := Lower(name);
      (r == "Vegas" <==> Contains(low, "vegas"))
      && (r == "MACD" <==> !Contains(low, "vegas") && Contains(low, "macd"))
      && (r == "Boll" <==> !Contains(low, "vegas") && !Contains(low, "macd")
                           && Contains(low, "bollinger"))
      && (r == "RSI" <==> !Contains(low, "vegas") && !Contains(low, "macd")
                          && !Contains(low, "bollinger") && Contains(low, "rsi"))
      && (r == "CsMa" <==> !Contains(low, "vegas") && !Contains(low, "macd")
                           && !Contains(low, "bollinger") && !Contains(low, "rsi")
                           && Contains(low, "csma"))
  {
    var low := Lower(name);
    if Contains(low, "vegas") then "Vegas"
    else if Contains(low, "macd") then "MACD"
    else if Contains(low, "bollinger") then "Boll"
    else if Contains(low, "rsi") then "RSI"
    else if Contains(low, "csma") then "CsMa"
    else "Unknown"
  }

  /** Every possible shorthand, in Python's string order. */
  const ShorthandOrder: seq<string> := ["Boll", "CsMa", "MACD", "RSI", "Unknown", "Vegas"]

  /** Python's `a < b` on strings: the first difference decides, and a proper
      prefix comes first. */
  predicate LexLess(a: string, b: string)
  {
    if a == [] then b != []
    else if b == [] then false
    else if a[0] != b[0] then a[0] < b[0]
    else LexLess(a[1..], b[1..])
  }

  lemma ShorthandOrderSorted()
    ensures forall i, j :: 0 <= i < j < |ShorthandOrder| ==> LexLess(ShorthandOrder[i], ShorthandOrder[j])
  {
    assert LexLess("Boll", "CsMa") && LexLess("CsMa", "MACD") && LexLess("MACD", "RSI");
    assert LexLess("RSI", "Unknown") && LexLess("Unknown", "Vegas");
    assert LexLess("Boll", "MACD") && LexLess("Boll", "RSI") && LexLess("Boll", "Unknown");
    assert LexLess("Boll", "Vegas") && LexLess("CsMa", "RSI") && LexLess("CsMa", "Unknown");
    assert LexLess("CsMa", "Vegas") && LexLess("MACD", "Unknown") && LexLess("MACD", "Vegas");
    assert LexLess("RSI", "Vegas");
  }

  /** Characters of a strategy name after its fixed prefix. */
  predicate NumericChar(c: char)
  {
    c == '_' || c == '-' || '0' <= c <= '9'
  }

  predicate NumericTail(s: string)
  {
    forall i :: 0 <= i < |s| ==> NumericChar(s[i])
  }

  lemma IntToStringNumeric(i: int)
    ensures NumericTail(IntToString(i))
  {
  }

  /** A name of prefix `p` and numeric tail `t` lower-cases to `q + t` when
      `q` is `p` lower-cased character by character. */
  lemma LowerWithTail(p: string, q: string, t: string)
    requires NumericTail(t) && NoDottedCapitalI(p)
    requires |q| == |p| && forall i :: 0 <= i < |p| ==> q[i] == LowerChar(p[i])
    ensures Lower(p + t) == q + t
  {
    LowerAppend(p, t);
    LowerNumeric(t);
    assert Lower(p) == q;
  }

  /** Lower-casing leaves a numeric tail as it is. */
  lemma LowerNumeric(t: string)
    requires NumericTail(t)
    ensures Lower(t) == t
  {
    assert NoDottedCapitalI(t) by {
      forall i | 0 <= i < |t|
        ensures t[i] != DottedCapitalI
      {
        assert NumericChar(t[i]);
      }
    }
  }

  /** A pattern with a letter that the text lacks does not occur in it. */
  lemma Absent(s: string, sub: string, c: char)
    requires c in sub && forall i :: 0 <= i < |s| ==> s[i] != c
    ensures !Contains(s, sub)
  {
    var j :| 0 <= j < |sub| && sub[j] == c;
    forall k | 0 <= k <= |s| - |sub|
      ensures !OccursAt(s, sub, k)
    {
      assert s[k..k + |sub|][j] == s[k + j];
    }
  }

  lemma Prefix(s: string, p: string)
    requires |p| <= |s| && s[..|p|] == p
    ensures Contains(s, p)
  {
    assert OccursAt(s, p, 0);
  }

  /** A lower-cased prefix `q` with a numeric tail `t`: a pattern is absent
      when one of its letters is neither in `q` nor a digit. */
  lemma AbsentFromName(q: string, t: string, sub: string, c: char)
    requires NumericTail(t) && c in sub && !NumericChar(c) && c !in q
    ensures !Contains(q + t, sub)
  {
    var s := q + t;
    forall i | 0 <= i < |s|
      ensures s[i] != c
    {
      if i < |q| {
        assert s[i] == q[i];
      } else {
        assert s[i] == t[i - |q|];
      }
    }
    Absent(s, sub, c);
  }

  lemma PrefixOfName(q: string, t: string, sub: string)
    requires |sub| <= |q| && q[..|sub|] == sub
    ensures Contains(q + t, sub)
  {
    var s := q + t;
    assert s[..|sub|] == sub;
    Prefix(s, sub);
  }

  /** Each strategy's own name maps to its shorthand. */
  lemma BollingerShorthand(b: BollingerStrategy.Config)
    ensures Shorthand(BollingerStrategy.Name(b)) == "Boll"
  {
    var t := NatToString(b.period) + "_" + IntToString(b.std);
    IntToStringNumeric(b.std);
    assert BollingerStrategy.Name(b) == "Bollinger_" + t;
    LowerWithTail("Bollinger_", "bollinger_", t);
    AbsentFromName("bollinger_", t, "vegas", 'v');
    AbsentFromName("bollinger_", t, "macd", 'm');
    PrefixOfName("bollinger_", t, "bollinger");
  }

  lemma VegasShorthand(v: VegasStrategy.Config)
    ensures Shorthand(VegasStrategy.Name(v)) == "Vegas"
  {
    var t := NatToString(v.ema1) + "_" + NatToString(v.ema2) + "_" + NatToString(v.ema3);
    assert VegasStrategy.Name(v) == "Vegas_Modified_" + t;
    LowerWithTail("Vegas_Modified_", "vegas_modified_", t);
    PrefixOfName("vegas_modified_", t, "vegas");
  }

  lemma RsiShorthand(r: RsiStrategy.Config)
    ensures Shorthand(RsiStrategy.Name(r)) == "RSI"
  {
    var t := IntToString(r.oversold) + "_" + IntToString(r.overbought);
    IntToStringNumeric(r.oversold);
    IntToStringNumeric(r.overbought);
    assert RsiStrategy.Name(r) == "RSI_" + t;
    LowerWithTail("RSI_", "rsi_", t);
    AbsentFromName("rsi_", t, "vegas", 'v');
    AbsentFromName("rsi_", t, "macd", 'm');
    AbsentFromName("rsi_", t, "bollinger", 'b');
    PrefixOfName("rsi_", t, "rsi");
  }

  /** `"RSİ_35_75".lower()` is `"rsi\u0307_35_75"`, which contains `rsi`: a
      dotted capital I spells the `i` of a pattern. */
  lemma DottedCapitalIShorthand(t: string)
    requires NumericTail(t)
    ensures Shorthand("RS" + [DottedCapitalI] + t) == "RSI"
  {
    var q := "rsi\U{0307}";
    DottedCapitalILower(t);
    AbsentFromName(q, t, "vegas", 'v');
    AbsentFromName(q, t, "macd", 'm');
    AbsentFromName(q, t, "bollinger", 'b');
    PrefixOfName(q, t, "rsi");
  }

  lemma DottedCapitalILower(t: string)
    requires NumericTail(t)
    ensures Lower("RS" + [DottedCapitalI] + t) == "rsi\U{0307}" + t
  {
    var p := "RS" + [DottedCapitalI];
    assert "RS" + [DottedCapitalI] + t == p + t;
    LowerAppend(p, t);
    LowerNumeric(t);
    DottedPrefixLower(p);
  }

  lemma DottedPrefixLower(p: string)
    requires p == ['R', 'S', DottedCapitalI]
    ensures Lower(p) == "rsi\U{0307}"
  {
    var dot: string := [DottedCapitalI];
    assert p[1..] == ['S'] + dot && (['S'] + dot)[1..] == dot && dot[1..] == [];
    assert Lower(dot) == "i\U{0307}";
    assert Lower(['S'] + dot) == "si\U{0307}";
  }

  lemma MacdShorthand(m: MacdStrategy.Config)
    ensures Shorthand(MacdStrategy.Name(m)) == "MACD"
  {
    var t := NatToString(m.fast) + "_" + NatToString(m.slow) + "_" + NatToString(m.signal);
    assert MacdStrategy.Name(m) == "MACD_Cross_" + t;
    LowerWithTail("MACD_Cross_", "macd_cross_", t);
    AbsentFromName("macd_cross_", t, "vegas", 'v');
    PrefixOfName("macd_cross_", t, "macd");
  }

  lemma CsMaShorthand(c: CsMaStrategy.Config)
    ensures Shorthand(CsMaStrategy.Name(c)) == "CsMa"
  {
    CsMaNameBeforeBollinger(c);
    CsMaNameFromBollinger(c);
  }

  function CsMaTail(c: CsMaStrategy.Config): string
  {
    NatToString(c.fast) + "_" + NatToString(c.medium) + "_" + NatToString(c.slow)
  }

  /** The CsMa name lower-cases to its lower-cased prefix and its numeric tail. */
  lemma CsMaNameLower(c: CsMaStrategy.Config)
    ensures NumericTail(CsMaTail(c))
    ensures Lower(CsMaStrategy.Name(c)) == "csmastrategy_" + CsMaTail(c)
  {
    var t := CsMaTail(c);
    assert CsMaStrategy.Name(c) == "CsMaStrategy_" + t;
    LowerWithTail("CsMaStrategy_", "csmastrategy_", t);
  }

  /** The CsMa name mentions neither "vegas" nor "macd". */
  lemma CsMaNameBeforeBollinger(c: CsMaStrategy.Config)
    ensures !Contains(Lower(CsMaStrategy.Name(c)), "vegas")
    ensures !Contains(Lower(CsMaStrategy.Name(c)), "macd")
  {
    CsMaNameLower(c);
    AbsentFromName("csmastrategy_", CsMaTail(c), "vegas", 'v');
    AbsentFromName("csmastrategy_", CsMaTail(c), "macd", 'd');
  }

  /** The CsMa name mentions neither "bollinger" nor "rsi", but does mention "csma". */
  lemma CsMaNameFromBollinger(c: CsMaStrategy.Config)
    ensures !Contains(Lower(CsMaStrategy.Name(c)), "bollinger")
    ensures !Contains(Lower(CsMaStrategy.Name(c)), "rsi")
    ensures Contains(Lower(CsMaStrategy.Name(c)), "csma")
  {
    CsMaNameLower(c);
    AbsentFromName("csmastrategy_", CsMaTail(c), "bollinger", 'b');
    AbsentFromName("csmastrategy_", CsMaTail(c), "rsi", 'i');
    PrefixOfName("csmastrategy_", CsMaTail(c), "csma");
  }

  /** A CJK unified ideograph, U+4E00 to U+9FFF. */
  predicate Wide(c: char)
  {
    '\U{4E00}' <= c <= '\U{9FFF}'
  }

  function CharWidth(c: char): nat
  {
    if Wide(c) then 2 else 1
  }

  /** Display width: the widths of the characters added up. */
  function Width(s: string): nat
  {
    if s == [] then 0 else Width(s[..|s| - 1]) + CharWidth(s[|s| - 1])
  }

  /** `get_str_width`. */
  method StrWidth(s: string) returns (width: nat)
    ensures width == Width(s)
  {
    width := 0;
    for i := 0 to |s|
      invariant width == Width(s[..i])
    {
      assert s[..i + 1][..i] == s[..i];
      width := width + if '\U{4E00}' <= s[i] <= '\U{9FFF}' then 2 else 1;
    }
    assert s[..|s|] == s;
  }

  lemma {:induction false} WidthAppend(a: string, b: string)
    ensures Width(a + b) == Width(a) + Width(b)
    decreases |b|
  {
    if b == [] {
      assert a + b == a;
    } else {
      assert (a + b)[..|a + b| - 1] == a + b[..|b| - 1];
      WidthAppend(a, b[..|b| - 1]);
    }
  }

  /** The width lies between the length and twice the length, and equals the
      length exactly when there is no wide character. */
  lemma {:induction false} WidthBounds(s: string)
    ensures |s| <= Width(s) <= 2 * |s|
    ensures Width(s) == |s| <==> forall i :: 0 <= i < |s| ==> !Wide(s[i])
  {
    if s != [] {
      var init := s[..|s| - 1];
      WidthBounds(init);
      assert forall i :: 0 <= i < |init| ==> init[i] == s[i];
    }
  }

  /** A run of a narrow character is as wide as it is long. */
  lemma {:induction false} WidthOfRepeat(c: char, n: nat)
    requires !Wide(c)
    ensures Width(Repeat(c, n)) == n
  {
    if n > 0 {
      assert Repeat(c, n)[..n - 1] == Repeat(c, n - 1);
      WidthOfRepeat(c, n - 1);
    }
  }

  /** `cell.ljust(width - (Width(cell) - len(cell)))`: spaces on the right so
      that the whole cell is `width` columns wide. */
  function PadCell(cell: string, width: int): (r: string)
    ensures |cell| <= |r| && r[..|cell|] == cell
    ensures forall k :: |cell| <= k < |r| ==> r[k] == ' '
    ensures Width(cell) <= width ==> Width(r) == width
    ensures Width(cell) >= width ==> r == cell
  {
    var target := width - (Width(cell) - |cell|);
    if target > |cell| then
      WidthAppend(cell, Repeat(' ', target - |cell|));
      WidthOfRepeat(' ', target - |cell|);
      cell + Repeat(' ', target - |cell|)
    else cell
  }

  /** The widths of the header cells. */
  function HeaderWidths(header: seq<string>): (w: seq<nat>)
    ensures |w| == |header| && forall i :: 0 <= i < |header| ==> w[i] == Width(header[i])
  {
    seq(|header|, i requires 0 <= i < |header| => Width(header[i]))
  }

  /** The widths after looking at one more row. */
  function Widen(widths: seq<nat>, row: seq<string>): (w: seq<nat>)
    ensures |w| == |widths|
    ensures forall i :: 0 <= i < |widths| ==>
              widths[i] <= w[i] && (i < |row| ==> Width(row[i]) <= w[i])
              && (w[i] == widths[i] || (i < |row| && w[i] == Width(row[i])))
  {
    seq(|widths|, i requires 0 <= i < |widths| =>
      if i < |row| && widths[i] < Width(row[i]) then Width(row[i]) else widths[i])
  }

  /** The column widths: each is the widest of its header cell and the cells
      below it, and is attained by one of them. */
  function ColumnWidths(header: seq<string>, rows: seq<seq<string>>): (w: seq<nat>)
    ensures |w| == |header|
    ensures forall i :: 0 <= i < |header| ==> Width(header[i]) <= w[i]
    ensures forall j, i :: 0 <= j < |rows| && 0 <= i < |rows[j]| && i < |header| ==>
              Width(rows[j][i]) <= w[i]
    ensures forall i :: 0 <= i < |header| ==>
              w[i] == Width(header[i])
              || exists j :: 0 <= j < |rows| && i < |rows[j]| && w[i] == Width(rows[j][i])
  {
    if rows == [] then HeaderWidths(header)
    else
      var prev := ColumnWidths(header, rows[..|rows| - 1]);
      assert forall j :: 0 <= j < |rows| - 1 ==> rows[..|rows| - 1][j] == rows[j];
      Widen(prev, rows[|rows| - 1])
  }

  /** The column-width loop of `format_signals_to_simplified_table`. */
  method ComputeColumnWidths(header: seq<string>, rows: seq<seq<string>>) returns (widths: seq<nat>)
    requires forall j :: 0 <= j < |rows| ==> |rows[j]| <= |header|
    ensures widths == ColumnWidths(header, rows)
  {
    widths := [];
    for i := 0 to |header|
      invariant widths == HeaderWidths(header[..i])
    {
      var w := StrWidth(header[i]);
      widths := widths + [w];
    }
    assert header[..|header|] == header;
    for j := 0 to |rows|
      invariant widths == ColumnWidths(header, rows[..j])
    {
      assert rows[..j + 1][..j] == rows[..j];
      var row := rows[j];
      ghost var before := widths;
      for i := 0 to |row|
        invariant |widths| == |before|
        invariant forall k :: 0 <= k < |before| ==>
                    widths[k] == if k < i then Widen(before, row)[k] else before[k]
      {
        var cw := StrWidth(row[i]);
        widths := widths[i := if widths[i] >= cw then widths[i] else cw];
      }
      assert widths == Widen(before, row);
    }
    assert rows[..|rows|] == rows;
  }

  /** The cells of a line padded to their columns. */
  function PadRow(cells: seq<string>, widths: seq<nat>): (r: seq<string>)
    requires |cells| <= |widths|
    ensures |r| == |cells| && forall i :: 0 <= i < |cells| ==> r[i] == PadCell(cells[i], widths[i])
  {
    seq(|cells|, i requires 0 <= i < |cells| => PadCell(cells[i], widths[i]))
  }

  /** A header or data line: the padded cells joined by ` | `. */
  function TableLine(cells: seq<string>, widths: seq<nat>): string
    requires |cells| <= |widths|
  {
    Join(" | ", PadRow(cells, widths))
  }

  /** A run of `-` per column. */
  function Dashes(widths: seq<nat>): (r: seq<string>)
    ensures |r| == |widths| && forall i :: 0 <= i < |widths| ==> r[i] == Repeat('-', widths[i])
  {
    seq(|widths|, i requires 0 <= i < |widths| => Repeat('-', widths[i]))
  }

  /** The separator: runs of `-` as wide as each column, joined by `-+-`. */
  function SeparatorLine(widths: seq<nat>): string
  {
    Join("-+-", Dashes(widths))
  }

  /** Every padded header and row cell is exactly as wide as its column. */
  lemma PaddedCellsFillColumns(header: seq<string>, rows: seq<seq<string>>)
    requires forall j :: 0 <= j < |rows| ==> |rows[j]| <= |header|
    ensures var w := ColumnWidths(header, rows);
      (forall i :: 0 <= i < |header| ==> Width(PadRow(header, w)[i]) == w[i])
      && forall j, i :: 0 <= j < |rows| && 0 <= i < |rows[j]| ==>
           Width(PadRow(rows[j], w)[i]) == w[i]
  {
  }

  function SumWidths(parts: seq<string>): nat
  {
    if parts == [] then 0 else SumWidths(parts[..|parts| - 1]) + Width(parts[|parts| - 1])
  }

  lemma {:induction false} JoinWidth(sep: string, parts: seq<string>)
    requires parts != []
    ensures Width(Join(sep, parts)) == SumWidths(parts) + (|parts| - 1) * Width(sep)
  {
    if |parts| > 1 {
      var init := parts[..|parts| - 1];
      var last := parts[|parts| - 1];
      JoinWidth(sep, init);
      assert Join(sep, parts) == Join(sep, init) + sep + last;
      WidthAppend(Join(sep, init) + sep, last);
      WidthAppend(Join(sep, init), sep);
      assert SumWidths(parts) == SumWidths(init) + Width(last);
      var n := |parts| - 1;
      assert (n - 1) * Width(sep) + Width(sep) == n * Width(sep);
    } else {
      assert parts[..0] == [];
    }
  }

  function SumNat(xs: seq<nat>): nat
  {
    if xs == [] then 0 else SumNat(xs[..|xs| - 1]) + xs[|xs| - 1]
  }

  lemma {:induction false} SumWidthsMatch(parts: seq<string>, widths: seq<nat>)
    requires |parts| == |widths| && forall i :: 0 <= i < |parts| ==> Width(parts[i]) == widths[i]
    ensures SumWidths(parts) == SumNat(widths)
  {
    if parts != [] {
      SumWidthsMatch(parts[..|parts| - 1], widths[..|widths| - 1]);
    }
  }

  lemma SeparatorsWidth()
    ensures Width(" | ") == 3 && Width("-+-") == 3
  {
    WidthBounds(" | ");
    WidthBounds("-+-");
  }

  /** A full line is the column widths plus three columns per ` | `. */
  lemma LineWidth(cells: seq<string>, widths: seq<nat>)
    requires |cells| == |widths| && cells != []
    requires forall i :: 0 <= i < |cells| ==> Width(cells[i]) <= widths[i]
    ensures Width(TableLine(cells, widths)) == SumNat(widths) + (|widths| - 1) * 3
  {
    var padded := PadRow(cells, widths);
    SumWidthsMatch(padded, widths);
    JoinWidth(" | ", padded);
    SeparatorsWidth();
  }

  /** The separator is the column widths plus three columns per `-+-`. */
  lemma SeparatorWidth(widths: seq<nat>)
    requires widths != []
    ensures Width(SeparatorLine(widths)) == SumNat(widths) + (|widths| - 1) * 3
  {
    var dashes := Dashes(widths);
    forall i | 0 <= i < |widths|
      ensures Width(dashes[i]) == widths[i]
    {
      WidthOfRepeat('-', widths[i]);
    }
    SumWidthsMatch(dashes, widths);
    JoinWidth("-+-", dashes);
    SeparatorsWidth();
  }

  /** The columns line up: a full line is as wide as the separator. */
  lemma LineAsWideAsSeparator(cells: seq<string>, widths: seq<nat>)
    requires |cells| == |widths| && cells != []
    requires forall i :: 0 <= i < |cells| ==> Width(cells[i]) <= widths[i]
    ensures Width(TableLine(cells, widths)) == Width(SeparatorLine(widths))
  {
    LineWidth(cells, widths);
    SeparatorWidth(widths);
  }

  /** One signal as the table reads it. */
  datatype SignalEntry = SignalEntry(strategy: string, price: real)

  /** What the aggregation keeps for an item: its shorthands and its prices. */
  datatype Aggregated = Aggregated(name: string, strategies: set<string>, prices: seq<real>)

  function Prices(signals: seq<SignalEntry>): (r: seq<real>)
    ensures |r| == |signals| && forall k :: 0 <= k < |signals| ==> r[k] == signals[k].price
  {
    seq(|signals|, k requires 0 <= k < |signals| => signals[k].price)
  }

  function Shorthands(signals: seq<SignalEntry>): set<string>
  {
    set k | 0 <= k < |signals| :: Shorthand(signals[k].strategy)
  }

  /** One item's entry: none when it has no signals, otherwise its name, the
      shorthands of its strategies and its prices in signal order. */
  function AggregateItem(item: (string, seq<SignalEntry>)): Option<Aggregated>
  {
    if item.1 == [] then None else Some(Aggregated(item.0, Shorthands(item.1), Prices(item.1)))
  }

  function AggregateEach(items: seq<(string, seq<SignalEntry>)>): (r: seq<Option<Aggregated>>)
    ensures |r| == |items| && forall k :: 0 <= k < |items| ==> r[k] == AggregateItem(items[k])
  {
    seq(|items|, k requires 0 <= k < |items| => AggregateItem(items[k]))
  }

  /** The aggregation of one signal type's items (the entries of a dict, so
      names are distinct): items without signals are skipped. */
  function Aggregate(items: seq<(string, seq<SignalEntry>)>): (r: seq<Aggregated>)
    ensures |r| <= |items|
  {
    Compact(AggregateEach(items))
  }

  /** Entry by entry: the m-th entry is the m-th item with signals, carrying
      its name, its prices in signal order and the shorthands of its
      strategies; the items keep their order, every item with signals has an
      entry, and there are no entries exactly when no item has signals. */
  lemma AggregateKeepsItems(items: seq<(string, seq<SignalEntry>)>)
    ensures var idx := SomeIndices(AggregateEach(items));
      var agg := Aggregate(items);
      |agg| == |idx|
      && (forall m :: 0 <= m < |idx| ==>
            idx[m] < |items| && items[idx[m]].1 != []
            && agg[m] == Aggregated(items[idx[m]].0, Shorthands(items[idx[m]].1),
                                    Prices(items[idx[m]].1)))
      && (forall m1, m2 :: 0 <= m1 < m2 < |idx| ==> idx[m1] < idx[m2])
      && (forall k :: 0 <= k < |items| && items[k].1 != [] ==> k in idx)
      && (agg == [] <==> forall k :: 0 <= k < |items| ==> items[k].1 == [])
  {
    AggregateEntries(items);
    AggregateComplete(items);
  }

  lemma AggregateEntries(items: seq<(string, seq<SignalEntry>)>)
    ensures var idx := SomeIndices(AggregateEach(items));
      var agg := Aggregate(items);
      |agg| == |idx|
      && (forall m :: 0 <= m < |idx| ==>
            idx[m] < |items| && items[idx[m]].1 != []
            && agg[m] == Aggregated(items[idx[m]].0, Shorthands(items[idx[m]].1),
                                    Prices(items[idx[m]].1)))
      && (forall m1, m2 :: 0 <= m1 < m2 < |idx| ==> idx[m1] < idx[m2])
  {
    var each := AggregateEach(items);
    var idx := SomeIndices(each);
    var agg := Compact(each);
    IndicesValues(each);
    IndicesIncrease(each);
    forall m | 0 <= m < |idx|
      ensures items[idx[m]].1 != []
              && agg[m] == Aggregated(items[idx[m]].0, Shorthands(items[idx[m]].1),
                                      Prices(items[idx[m]].1))
    {
      assert each[idx[m]] == AggregateItem(items[idx[m]]) == Some(agg[m]);
    }
  }

  lemma AggregateComplete(items: seq<(string, seq<SignalEntry>)>)
    ensures forall k :: 0 <= k < |items| && items[k].1 != [] ==> k in SomeIndices(AggregateEach(items))
    ensures Aggregate(items) == [] <==> forall k :: 0 <= k < |items| ==> items[k].1 == []
  {
    var each := AggregateEach(items);
    IndicesCover(each);
    CompactEmpty(each);
    assert forall k :: 0 <= k < |items| ==> (each[k].None? <==> items[k].1 == []);
  }

  /** The shorthands present, in sorted order. */
  function SortedShorthands(strategies: set<string>): (r: seq<string>)
  {
    InOrder(strategies, ShorthandOrder)
  }

  /** The members of `strategies` that occur in `order`, in the order's order. */
  function InOrder(strategies: set<string>, order: seq<string>): (r: seq<string>)
    ensures forall x :: x in r <==> x in strategies && x in order
  {
    if order == [] then []
    else (if order[0] in strategies then [order[0]] else []) + InOrder(strategies, order[1..])
  }

  /** Taken from an order ascending under `less`, the members come out ascending. */
  lemma {:induction false} InOrderSorted(strategies: set<string>, order: seq<string>,
                                         less: (string, string) -> bool)
    requires forall i, j :: 0 <= i < j < |order| ==> less(order[i], order[j])
    ensures forall m1, m2 :: 0 <= m1 < m2 < |InOrder(strategies, order)| ==>
              less(InOrder(strategies, order)[m1], InOrder(strategies, order)[m2])
  {
    if order != [] {
      var tail := order[1..];
      assert forall i :: 0 <= i < |tail| ==> tail[i] == order[i + 1];
      InOrderSorted(strategies, tail, less);
      var rest := InOrder(strategies, tail);
      var r := InOrder(strategies, order);
      if order[0] in strategies {
        assert r == [order[0]] + rest;
        forall m1, m2 | 0 <= m1 < m2 < |r|
          ensures less(r[m1], r[m2])
        {
          var y := rest[m2 - 1];
          assert r[m2] == y;
          if m1 == 0 {
            assert y in rest;
            var k :| 0 <= k < |tail| && tail[k] == y;
            assert less(order[0], order[k + 1]);
            assert r[m1] == order[0] && order[k + 1] == y;
          } else {
            assert r[m1] == rest[m1 - 1];
            assert less(rest[m1 - 1], y);
          }
        }
      } else {
        assert r == rest;
      }
    }
  }

  /** `"/".join(sorted(list(strategies)))` lists each shorthand once, in
      ascending order: exactly the strategies of the item. */
  lemma StrategyCellSorted(signals: seq<SignalEntry>)
    ensures var r := SortedShorthands(Shorthands(signals));
      (forall x :: x in r <==> x in Shorthands(signals))
      && forall m1, m2 :: 0 <= m1 < m2 < |r| ==> LexLess(r[m1], r[m2])
  {
    ShorthandOrderSorted();
    var less := (a: string, b: string) => LexLess(a, b);
    InOrderSorted(Shorthands(signals), ShorthandOrder, less);
    var r := InOrder(Shorthands(signals), ShorthandOrder);
    assert r == SortedShorthands(Shorthands(signals));
    forall m1, m2 | 0 <= m1 < m2 < |r|
      ensures LexLess(r[m1], r[m2])
    {
      assert less(r[m1], r[m2]);
    }
    forall x | x in Shorthands(signals)
      ensures x in ShorthandOrder
    {
      var j :| 0 <= j < |signals| && x == Shorthand(signals[j].strategy);
    }
  }

  /** The three cells of an item's row; `fmt` stands for `f"{p:.2f}"`. */
  function RowCells(a: Aggregated, fmt: real -> string): (r: seq<string>)
    ensures |r| == 3
  {
    [a.name, Join("/", SortedShorthands(a.strategies)),
     Join(", ", seq(|a.prices|, k requires 0 <= k < |a.prices| => fmt(a.prices[k])))]
  }

  const Header: seq<string> := ["商品名称", "策略组合", "触发价格"]

  function TypeTitle(signalType: string): string
  {
    if signalType == "buy" then "\n--- \U{1F4C8} 买入信号 (Buy Signals) ---\n"
    else "\n--- \U{1F4C9} 卖出信号 (Sell Signals) ---\n"
  }

  function Rows(agg: seq<Aggregated>, fmt: real -> string): (r: seq<seq<string>>)
    ensures |r| == |agg| && forall j :: 0 <= j < |agg| ==> r[j] == RowCells(agg[j], fmt)
  {
    seq(|agg|, j requires 0 <= j < |agg| => RowCells(agg[j], fmt))
  }

  /** The lines of one signal type: none when no item has a signal, else the
      title, the header, the separator and one line per item. */
  function GroupLines(signalType: string, items: seq<(string, seq<SignalEntry>)>,
                      fmt: real -> string): (lines: seq<string>)
  {
    var agg := Aggregate(items);
    if agg == [] then [] else Table(TypeTitle(signalType), Header, Rows(agg, fmt))
  }

  /** A titled table: the title, the header line, the separator and one line
      per row, with the columns as wide as their widest cell. */
  function Table(title: string, header: seq<string>, rows: seq<seq<string>>): seq<string>
    requires forall j :: 0 <= j < |rows| ==> |rows[j]| <= |header|
  {
    var w := ColumnWidths(header, rows);
    [title, TableLine(header, w), SeparatorLine(w)] + DataLines(rows, w)
  }

  /** One line per row. */
  function DataLines(rows: seq<seq<string>>, w: seq<nat>): (r: seq<string>)
    requires forall j :: 0 <= j < |rows| ==> |rows[j]| <= |w|
    ensures |r| == |rows| && forall j :: 0 <= j < |rows| ==> r[j] == TableLine(rows[j], w)
  {
    seq(|rows|, j requires 0 <= j < |rows| => TableLine(rows[j], w))
  }

  /** A signal type whose items have no signals prints nothing. */
  lemma EmptyGroup(signalType: string, items: seq<(string, seq<SignalEntry>)>, fmt: real -> string)
    requires forall k :: 0 <= k < |items| ==> items[k].1 == []
    ensures GroupLines(signalType, items, fmt) == []
  {
    AggregateKeepsItems(items);
  }

  /** With widths from `ColumnWidths`, the header and every row line are as
      wide as the separator. */
  lemma TableAligned(header: seq<string>, rows: seq<seq<string>>)
    requires header != [] && forall j :: 0 <= j < |rows| ==> |rows[j]| == |header|
    ensures var w := ColumnWidths(header, rows);
      Width(TableLine(header, w)) == Width(SeparatorLine(w))
      && forall j :: 0 <= j < |rows| ==> Width(TableLine(rows[j], w)) == Width(SeparatorLine(w))
  {
    var w := ColumnWidths(header, rows);
    LineAsWideAsSeparator(header, w);
    forall j | 0 <= j < |rows|
      ensures Width(TableLine(rows[j], w)) == Width(SeparatorLine(w))
    {
      LineAsWideAsSeparator(rows[j], w);
    }
  }

  /** A table has a line per row after its three head lines, and every line
      after the title is as wide as the separator. */
  lemma TableShape(title: string, header: seq<string>, rows: seq<seq<string>>)
    requires header != [] && forall j :: 0 <= j < |rows| ==> |rows[j]| == |header|
    ensures var lines := Table(title, header, rows);
      var w := ColumnWidths(header, rows);
      |lines| == 3 + |rows|
      && forall n :: 1 <= n < |lines| ==> Width(lines[n]) == Width(SeparatorLine(w))
  {
    TableAligned(header, rows);
    var w := ColumnWidths(header, rows);
    var data := DataLines(rows, w);
    var lines := Table(title, header, rows);
    assert lines == [title, TableLine(header, w), SeparatorLine(w)] + data;
    UniformWidth(title, TableLine(header, w), SeparatorLine(w), data, Width(SeparatorLine(w)));
  }

  /** Lines after the first share a width when each part has it. */
  lemma UniformWidth(title: string, head: string, sep: string, data: seq<string>, width: nat)
    requires Width(head) == width && Width(sep) == width
    requires forall j :: 0 <= j < |data| ==> Width(data[j]) == width
    ensures var lines := [title, head, sep] + data;
      forall n :: 1 <= n < |lines| ==> Width(lines[n]) == width
  {
    var lines := [title, head, sep] + data;
    forall n | 1 <= n < |lines|
      ensures Width(lines[n]) == width
    {
      if n > 2 {
        assert lines[n] == data[n - 3];
      }
    }
  }

  /** Otherwise the group holds the title, the header, the separator and a
      line per aggregated item, every table line as wide as the separator. */
  lemma GroupShape(signalType: string, items: seq<(string, seq<SignalEntry>)>, fmt: real -> string)
    requires Aggregate(items) != []
    ensures var lines := GroupLines(signalType, items, fmt);
      var agg := Aggregate(items);
      var w := ColumnWidths(Header, Rows(agg, fmt));
      |lines| == 3 + |agg|
      && forall n :: 1 <= n < |lines| ==> Width(lines[n]) == Width(SeparatorLine(w))
  {
    var rows := Rows(Aggregate(items), fmt);
    assert |Header| == 3;
    TableShape(TypeTitle(signalType), Header, rows);
  }

  /** One favourites list: its banner, then the groups of its signal types. */
  function FavoriteLines(name: string, groups: seq<(string, seq<(string, seq<SignalEntry>)>)>,
                         fmt: real -> string): seq<string>
  {
    if groups == [] then ["========== 收藏夹: " + name + " =========="]
    else
      var last := groups[|groups| - 1];
      FavoriteLines(name, groups[..|groups| - 1], fmt) + GroupLines(last.0, last.1, fmt)
  }

  function AllLines(data: seq<(string, seq<(string, seq<(string, seq<SignalEntry>)>)>)>,
                    fmt: real -> string): seq<string>
  {
    if data == [] then []
    else
      var last := data[|data| - 1];
      AllLines(data[..|data| - 1], fmt) + FavoriteLines(last.0, last.1, fmt)
  }

  /** `format_signals_to_simplified_table`: every line joined by newlines. */
  function FormatSignalsTable(data: seq<(string, seq<(string, seq<(string, seq<SignalEntry>)>)>)>,
                              fmt: real -> string): string
  {
    Join("\n", AllLines(data, fmt))
  }

  /** A favourites list whose items have no signals prints only its banner. */
  lemma {:induction false} EmptyFavoriteIsBanner(name: string,
                                                 groups: seq<(string, seq<(string, seq<SignalEntry>)>)>,
                                                 fmt: real -> string)
    requires forall g, k :: 0 <= g < |groups| && 0 <= k < |groups[g].1| ==> groups[g].1[k].1 == []
    ensures FavoriteLines(name, groups, fmt) == ["========== 收藏夹: " + name + " =========="]
  {
    if groups != [] {
      var init := groups[..|groups| - 1];
      assert forall g :: 0 <= g < |init| ==> init[g] == groups[g];
      EmptyFavoriteIsBanner(name, init, fmt);
      EmptyGroup(groups[|groups| - 1].0, groups[|groups| - 1].1, fmt);
    }
  }
}
