/** `MarketDataCleaner` of `analysis/data_cleaner.py`: normalises raw kline
    items to plain rows, optionally dropping items with a `None` field. */
module DataCleaner {
  import opened Common
  import opened Market

  /** A raw kline item: a list of fields, a dict (its entries in insertion
      order), or anything else. `Missing` is Python's `None`. */
  datatype Item =
    | ListItem(cells: seq<RawField>)
    | DictItem(entries: seq<(string, RawField)>)
    | OtherItem

  /** `list(item.values())`. */
  function Values(entries: seq<(string, RawField)>): (r: RawRow)
    ensures |r| == |entries| && forall k :: 0 <= k < |entries| ==> r[k] == entries[k].1
  {
    seq(|entries|, k requires 0 <= k < |entries| => entries[k].1)
  }

  predicate HasNone(row: RawRow)
  {
    Missing in row
  }

  /** What one item contributes: nothing if it holds a `None` and those are
      removed, or if it is neither a list nor a dict. */
  function CleanItem(item: Item, removeNone: bool): (r: Option<RawRow>)
    ensures r.Some? <==> !item.OtherItem?
                         && !(removeNone && item.ListItem? && HasNone(item.cells))
                         && !(removeNone && item.DictItem? && HasNone(Values(item.entries)))
    ensures r.Some? && item.ListItem? ==> r.value == item.cells
    ensures r.Some? && item.DictItem? ==> r.value == Values(item.entries)
  {
    match item
    case ListItem(cells) => if removeNone && HasNone(cells) then None else Some(cells)
    case DictItem(entries) =>
      var vs := Values(entries);
      if removeNone && HasNone(vs) then None else Some(vs)
    case OtherItem => None
  }

  function PerItem(raw: seq<Item>, removeNone: bool): (r: seq<Option<RawRow>>)
    ensures |r| == |raw| && forall i :: 0 <= i < |raw| ==> r[i] == CleanItem(raw[i], removeNone)
  {
    seq(|raw|, i requires 0 <= i < |raw| => CleanItem(raw[i], removeNone))
  }

  /** What `clean_kline_data` returns: the kept items' rows, in input order. */
  function CleanKline(raw: seq<Item>, removeNone: bool): seq<RawRow>
  {
    Compact(PerItem(raw, removeNone))
  }

  /** `clean_kline_data`. */
  method CleanKlineData(raw: seq<Item>, removeNone: bool) returns (cleaned: seq<RawRow>)
    ensures cleaned == CleanKline(raw, removeNone)
  {
    if raw == [] {
      return [];
    }
    ghost var per := PerItem(raw, removeNone);
    cleaned := [];
    var i := 0;
    while i < |raw|
      invariant 0 <= i <= |raw|
      invariant cleaned == Compact(per[..i])
    {
      CompactPrefixStep(per, i);
      var item := raw[i];
      assert per[i] == CleanItem(item, removeNone);
      if removeNone && ((item.DictItem? && HasNone(Values(item.entries)))
                        || (item.ListItem? && HasNone(item.cells))) {
        assert per[i] == None;
      } else if item.DictItem? {
        cleaned := cleaned + [Values(item.entries)];
      } else if item.ListItem? {
        cleaned := cleaned + [item.cells];
      }
      assert cleaned == Compact(per[..i + 1]);
      i := i + 1;
    }
    assert per[..|raw|] == per;
  }

  /** No input, no output. */
  lemma EmptyInput(removeNone: bool)
    ensures CleanKline([], removeNone) == []
  {
  }

  /** With `removeNone`, no output row holds a `None`. */
  lemma NoneRemoved(raw: seq<Item>)
    ensures forall row :: row in CleanKline(raw, true) ==> !HasNone(row)
  {
    var per := PerItem(raw, true);
    forall row | row in Compact(per)
      ensures !HasNone(row)
    {
      CompactMember(per, row);
    }
  }

  /** The output keeps input order: its m-th row is the row of the m-th kept
      item, kept items are the ones `CleanItem` accepts, and there are no more
      rows than items. */
  lemma {:induction false} OrderKept(raw: seq<Item>, removeNone: bool)
    ensures var idx := SomeIndices(PerItem(raw, removeNone));
      var out := CleanKline(raw, removeNone);
      |out| == |idx| <= |raw|
      && (forall m :: 0 <= m < |idx| ==>
            idx[m] < |raw| && CleanItem(raw[idx[m]], removeNone) == Some(out[m]))
      && (forall m1, m2 :: 0 <= m1 < m2 < |idx| ==> idx[m1] < idx[m2])
      && (forall i :: 0 <= i < |raw| && CleanItem(raw[i], removeNone).Some? ==> i in idx)
  {
    CompactIndexed(PerItem(raw, removeNone));
  }

  /** Without `removeNone` and with only lists and dicts, every item is kept,
      a dict becoming its values and a list passing through unchanged. */
  lemma KeepsEveryItem(raw: seq<Item>)
    requires forall i :: 0 <= i < |raw| ==> !raw[i].OtherItem?
    ensures var out := CleanKline(raw, false);
      |out| == |raw|
      && forall i :: 0 <= i < |raw| ==>
           out[i] == (if raw[i].ListItem? then raw[i].cells else Values(raw[i].entries))
  {
    CompactAllPresent(PerItem(raw, false));
  }

  /** Items that are neither lists nor dicts contribute nothing. */
  lemma OthersDropped(raw: seq<Item>, removeNone: bool)
    requires forall i :: 0 <= i < |raw| ==> raw[i].OtherItem?
    ensures CleanKline(raw, removeNone) == []
  {
    CompactEmpty(PerItem(raw, removeNone));
  }

  /** `clean_market_data`: a non-dict input (`None` here) gives `{}`; otherwise
      each item's kline data is cleaned under the same key. */
  method CleanMarketData(raw: Option<map<string, seq<Item>>>, removeNone: bool)
    returns (cleaned: map<string, seq<RawRow>>)
    ensures raw.None? ==> cleaned == map[]
    ensures raw.Some? ==> cleaned.Keys == raw.value.Keys
    ensures raw.Some? ==> forall id :: id in cleaned ==> cleaned[id] == CleanKline(raw.value[id], removeNone)
  {
    if raw.None? {
      return map[];
    }
    var data := raw.value;
    cleaned := map[];
    var remaining := data.Keys;
    while remaining != {}
      invariant remaining <= data.Keys
      invariant cleaned.Keys == data.Keys - remaining
      invariant forall id :: id in cleaned ==> cleaned[id] == CleanKline(data[id], removeNone)
      decreases |remaining|
    {
      var id :| id in remaining;
      var rows := CleanKlineData(data[id], removeNone);
      cleaned := cleaned[id := rows];
      remaining := remaining - {id};
    }
  }
}
