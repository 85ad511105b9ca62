/** `SignalSummary` of `analysis/signal_summary.py`: a store of the latest
    signal per item id, and the cleaning of item names for a markdown table. */
module SignalSummary {
  import opened Common
  import opened Text

  /** The record `add_signal` stores for an item. */
  datatype SignalRecord = SignalRecord(name: string, signalType: string, price: real,
                                       open: real, close: real, volume: real,
                                       bollMiddle: real, bollUpper: real, bollLower: real,
                                       timestamp: int)

  /** The characters that would break a markdown table row. */
  const SpecialChars: seq<char> := ['|', '*', '`', '_', '{', '}', '[', ']', '(', ')', '#', '+', '-', '.', '!']

  predicate Special(c: char)
  {
    c in SpecialChars
  }

  /** `s.replace(c, ' ')`. */
  function ReplaceChar(s: string, c: char): (r: string)
    ensures |r| == |s| && forall k :: 0 <= k < |s| ==> r[k] == if s[k] == c then ' ' else s[k]
  {
    seq(|s|, k requires 0 <= k < |s| => if s[k] == c then ' ' else s[k])
  }

  /** Every special character turned into a space. */
  function Blanked(s: string): (r: string)
    ensures |r| == |s| && forall k :: 0 <= k < |s| ==> r[k] == if Special(s[k]) then ' ' else s[k]
  {
    seq(|s|, k requires 0 <= k < |s| => if Special(s[k]) then ' ' else s[k])
  }

  /** The text after a leading run of whitespace. */
  function DropSpaces(s: string): (r: string)
    ensures |r| <= |s| && r == s[|s| - |r|..]
    ensures r == [] || !IsSpace(r[0])
    ensures forall i :: 0 <= i < |s| - |r| ==> IsSpace(s[i])
  {
    if s != [] && IsSpace(s[0]) then DropSpaces(s[1..]) else s
  }

  /** The longest prefix without whitespace. */
  function TakeWord(s: string): (w: string)
    ensures |w| <= |s| && w == s[..|w|] && NoSpace(w)
    ensures |w| < |s| ==> IsSpace(s[|w|])
    ensures s != [] && !IsSpace(s[0]) ==> w != []
  {
    if s == [] || IsSpace(s[0]) then [] else [s[0]] + TakeWord(s[1..])
  }

  /** `s.split()`: the maximal runs of non-whitespace, in order. */
  function Words(s: string): seq<string>
    decreases |s|
  {
    var t := DropSpaces(s);
    if t == [] then []
    else
      var w := TakeWord(t);
      [w] + Words(t[|w|..])
  }

  /** Every word is non-empty and holds no whitespace. */
  lemma {:induction false} WordsShape(s: string)
    ensures forall k :: 0 <= k < |Words(s)| ==> Words(s)[k] != [] && NoSpace(Words(s)[k])
    decreases |s|
  {
    var t := DropSpaces(s);
    if t != [] {
      var w := TakeWord(t);
      var u := t[|w|..];
      assert w != [] && NoSpace(w);
      WordsShape(u);
      var rest := Words(u);
      assert Words(s) == [w] + rest;
      ConsWords(w, rest);
    }
  }

  lemma ConsWords(w: string, rest: seq<string>)
    requires w != [] && NoSpace(w)
    requires forall k :: 0 <= k < |rest| ==> rest[k] != [] && NoSpace(rest[k])
    ensures forall k :: 0 <= k < |[w] + rest| ==> ([w] + rest)[k] != [] && NoSpace(([w] + rest)[k])
  {
    var ws := [w] + rest;
    forall k | 0 <= k < |ws|
      ensures ws[k] != [] && NoSpace(ws[k])
    {
      if k > 0 {
        assert ws[k] == rest[k - 1];
      }
    }
  }

  /** What `_clean_item_name` returns. */
  function CleanName(name: string): string
  {
    Join(" ", Words(Blanked(name)))
  }

  /** `_clean_item_name`: each special character replaced in turn, then the
      words rejoined with single spaces. */
  method CleanItemName(name: string) returns (cleaned: string)
    ensures cleaned == CleanName(name)
  {
    cleaned := name;
    for i := 0 to |SpecialChars|
      invariant |cleaned| == |name|
      invariant forall k :: 0 <= k < |name| ==>
                  cleaned[k] == if name[k] in SpecialChars[..i] then ' ' else name[k]
    {
      assert SpecialChars[..i + 1] == SpecialChars[..i] + [SpecialChars[i]];
      cleaned := ReplaceChar(cleaned, SpecialChars[i]);
    }
    assert SpecialChars[..|SpecialChars|] == SpecialChars;
    assert cleaned == Blanked(name);
    cleaned := Join(" ", Words(cleaned));
  }

  predicate NoSpecial(s: string)
  {
    forall i :: 0 <= i < |s| ==> !Special(s[i])
  }

  /** No leading or trailing whitespace, every whitespace character a plain
      space, and no two of them in a row. */
  ghost predicate SingleSpaced(s: string)
  {
    (s != [] ==> !IsSpace(s[0]) && !IsSpace(s[|s| - 1]))
    && (forall i :: 0 <= i < |s| && IsSpace(s[i]) ==> s[i] == ' ')
    && (forall i, j :: 0 <= i < j < |s| && j == i + 1 ==> !(IsSpace(s[i]) && IsSpace(s[j])))
  }

  lemma WordsNoSpecial(s: string)
    requires NoSpecial(s)
    ensures forall k :: 0 <= k < |Words(s)| ==> NoSpecial(Words(s)[k])
  {
    var p := (c: char) => !Special(c);
    WordsKeep(s, p);
    forall k | 0 <= k < |Words(s)|
      ensures NoSpecial(Words(s)[k])
    {
      forall i | 0 <= i < |Words(s)[k]|
        ensures !Special(Words(s)[k][i])
      {
        assert p(Words(s)[k][i]);
      }
    }
  }

  /** Every character of every word satisfies what every character of the
      text satisfies. */
  lemma {:induction false} WordsKeep(s: string, p: char -> bool)
    requires forall i :: 0 <= i < |s| ==> p(s[i])
    ensures forall k, i :: 0 <= k < |Words(s)| && 0 <= i < |Words(s)[k]| ==> p(Words(s)[k][i])
    decreases |s|
  {
    var t := DropSpaces(s);
    if t != [] {
      var w := TakeWord(t);
      var u := t[|w|..];
      assert forall i :: 0 <= i < |t| ==> p(t[i]) by {
        DropKeeps(s, |s| - |t|, p);
      }
      assert forall i :: 0 <= i < |w| ==> p(w[i]) by {
        TakeKeeps(t, |w|, p);
      }
      assert forall i :: 0 <= i < |u| ==> p(u[i]) by {
        DropKeeps(t, |w|, p);
      }
      WordsKeep(u, p);
      assert Words(s) == [w] + Words(u);
      ConsKeeps(w, Words(u), p);
    }
  }

  lemma DropKeeps(s: string, n: nat, p: char -> bool)
    requires n <= |s| && forall i :: 0 <= i < |s| ==> p(s[i])
    ensures forall i :: 0 <= i < |s| - n ==> p(s[n..][i])
  {
    assert forall i :: 0 <= i < |s| - n ==> s[n..][i] == s[n + i];
  }

  lemma TakeKeeps(s: string, n: nat, p: char -> bool)
    requires n <= |s| && forall i :: 0 <= i < |s| ==> p(s[i])
    ensures forall i :: 0 <= i < n ==> p(s[..n][i])
  {
    assert forall i :: 0 <= i < n ==> s[..n][i] == s[i];
  }

  lemma ConsKeeps(w: string, rest: seq<string>, p: char -> bool)
    requires forall i :: 0 <= i < |w| ==> p(w[i])
    requires forall k, i :: 0 <= k < |rest| && 0 <= i < |rest[k]| ==> p(rest[k][i])
    ensures forall k, i :: 0 <= k < |[w] + rest| && 0 <= i < |([w] + rest)[k]| ==> p(([w] + rest)[k][i])
  {
    var ws := [w] + rest;
    forall k, i | 0 <= k < |ws| && 0 <= i < |ws[k]|
      ensures p(ws[k][i])
    {
      if k > 0 {
        assert ws[k] == rest[k - 1];
      }
    }
  }

  lemma {:induction false} JoinNoSpecial(ws: seq<string>)
    requires forall k :: 0 <= k < |ws| ==> NoSpecial(ws[k])
    ensures NoSpecial(Join(" ", ws))
  {
    if |ws| > 1 {
      JoinNoSpecial(ws[..|ws| - 1]);
      var j := Join(" ", ws[..|ws| - 1]);
      var last := ws[|ws| - 1];
      var r := j + " " + last;
      forall i | 0 <= i < |r|
        ensures !Special(r[i])
      {
        if i < |j| {
          assert r[i] == j[i];
        } else if i > |j| {
          assert r[i] == last[i - |j| - 1];
        }
      }
    }
  }

  /** The cleaned name holds none of the special characters. */
  lemma CleanNameHasNoSpecial(name: string)
    ensures NoSpecial(CleanName(name))
  {
    WordsNoSpecial(Blanked(name));
    JoinNoSpecial(Words(Blanked(name)));
  }

  lemma {:induction false} JoinSingleSpaced(ws: seq<string>)
    requires forall k :: 0 <= k < |ws| ==> ws[k] != [] && NoSpace(ws[k])
    ensures SingleSpaced(Join(" ", ws))
  {
    if |ws| > 1 {
      JoinSingleSpaced(ws[..|ws| - 1]);
      var j := Join(" ", ws[..|ws| - 1]);
      var last := ws[|ws| - 1];
      var r := j + " " + last;
      assert j != [] by {
        JoinNonEmpty(ws[..|ws| - 1]);
      }
      forall i | 0 <= i < |r| && IsSpace(r[i])
        ensures r[i] == ' ' && i + 1 < |r| && !IsSpace(r[i + 1])
      {
        if i < |j| {
          assert r[i] == j[i];
          if i + 1 < |j| {
            assert r[i + 1] == j[i + 1];
          }
        } else if i == |j| {
          assert r[i + 1] == last[0];
        }
      }
      assert r[0] == j[0];
      assert r[|r| - 1] == last[|last| - 1];
    }
  }

  lemma {:induction false} JoinNonEmpty(ws: seq<string>)
    requires ws != [] && forall k :: 0 <= k < |ws| ==> ws[k] != []
    ensures Join(" ", ws) != []
  {
  }

  /** Surrounding whitespace is gone and words are separated by single spaces. */
  lemma CleanNameSingleSpaced(name: string)
    ensures SingleSpaced(CleanName(name))
  {
    WordsShape(Blanked(name));
    JoinSingleSpaced(Words(Blanked(name)));
  }

  /** `sep.join([w] + rest)` is `w + sep + sep.join(rest)`. */
  lemma {:induction false} JoinFront(sep: string, w: string, rest: seq<string>)
    requires rest != []
    ensures Join(sep, [w] + rest) == w + sep + Join(sep, rest)
    decreases |rest|
  {
    var all := [w] + rest;
    if |rest| == 1 {
      assert all[..1] == [w];
    } else {
      assert all[..|all| - 1] == [w] + rest[..|rest| - 1];
      JoinFront(sep, w, rest[..|rest| - 1]);
    }
  }

  lemma WordsFromWord(s: string)
    requires s != [] && !IsSpace(s[0])
    ensures Words(s) == [TakeWord(s)] + Words(s[|TakeWord(s)|..])
  {
    assert DropSpaces(s) == s;
  }

  lemma WordsSkipSpace(t: string)
    requires t != [] && IsSpace(t[0])
    ensures Words(t) == Words(t[1..])
  {
    assert DropSpaces(t) == DropSpaces(t[1..]);
  }

  lemma SingleSpacedSuffix(s: string, k: nat)
    requires SingleSpaced(s) && 0 < k < |s| && IsSpace(s[k - 1])
    ensures SingleSpaced(s[k..])
  {
    var t := s[k..];
    forall i | 0 <= i < |t| && IsSpace(t[i])
      ensures t[i] == ' ' && i + 1 < |t| && !IsSpace(t[i + 1])
    {
      assert t[i] == s[k + i];
    }
    assert t[0] == s[k] && t[|t| - 1] == s[|s| - 1];
  }

  /** A text that starts with a word and goes on after it: its words are that
      word and the words of what follows the space after it. */
  lemma WordsSplit(s: string)
    requires s != [] && !IsSpace(s[0]) && |TakeWord(s)| < |s|
    ensures Words(s) == [TakeWord(s)] + Words(s[|TakeWord(s)| + 1..])
  {
    WordsFromWord(s);
    var w := TakeWord(s);
    var rest := s[|w|..];
    assert rest[1..] == s[|w| + 1..];
    WordsSkipSpace(rest);
  }

  lemma SplitAt(s: string, k: nat)
    requires k < |s|
    ensures s == s[..k] + [s[k]] + s[k + 1..]
  {
  }

  /** A single-spaced text without a space is one word. */
  lemma WordsSingle(s: string)
    requires SingleSpaced(s) && s != [] && |TakeWord(s)| == |s|
    ensures Words(s) == [s]
  {
    WordsFromWord(s);
    assert TakeWord(s) == s;
    assert Words(s[|s|..]) == [];
  }

  /** Splitting a single-spaced text and rejoining it gives it back. */
  lemma {:induction false} JoinWords(s: string)
    requires SingleSpaced(s)
    ensures Join(" ", Words(s)) == s
    decreases |s|
  {
    if s != [] {
      var w := TakeWord(s);
      if |w| < |s| {
        var s' := s[|w| + 1..];
        FirstWord(s);
        JoinWords(s');
        RejoinStep(s, w, s', Words(s'));
      } else {
        WordsSingle(s);
      }
    }
  }

  /** A single-spaced text with a space: its first word, one space, and a
      single-spaced rest that has words of its own. */
  lemma FirstWord(s: string)
    requires SingleSpaced(s) && s != [] && |TakeWord(s)| < |s|
    ensures var w := TakeWord(s);
      var s' := s[|w| + 1..];
      SingleSpaced(s') && s[|w|] == ' ' && s == s[..|w|] + [s[|w|]] + s'
      && Words(s) == [w] + Words(s') && Words(s') != []
  {
    var w := TakeWord(s);
    var k := |w|;
    assert IsSpace(s[k]);
    assert s[k] == ' ' && k + 1 < |s|;
    var s' := s[k + 1..];
    assert s'[0] == s[k + 1];
    assert !IsSpace(s'[0]) by {
      assert k < k + 1 < |s| && IsSpace(s[k]);
    }
    assert SingleSpaced(s') by {
      SingleSpacedSuffix(s, k + 1);
    }
    assert Words(s) == [w] + Words(s') by {
      WordsSplit(s);
    }
    assert Words(s') != [] by {
      WordsFromWord(s');
    }
    SplitAt(s, k);
  }

  lemma RejoinStep(s: string, w: string, s': string, rest: seq<string>)
    requires |w| < |s| && rest != [] && Join(" ", rest) == s' && s == s[..|w|] + [s[|w|]] + s'
    requires w == s[..|w|] && s[|w|] == ' ' && Words(s) == [w] + rest
    ensures Join(" ", Words(s)) == s
  {
    JoinFront(" ", w, rest);
    assert [s[|w|]] == " ";
  }

  /** Cleaning a cleaned name changes nothing. */
  lemma CleanNameIdempotent(name: string)
    ensures CleanName(CleanName(name)) == CleanName(name)
  {
    var r := CleanName(name);
    CleanNameHasNoSpecial(name);
    CleanNameSingleSpaced(name);
    assert Blanked(r) == r;
    JoinWords(r);
  }

  /** The signal store: at most one record per item id, the latest one. */
  class SignalStore {
    var signals: map<string, SignalRecord>

    constructor ()
      ensures signals == map[]
    {
      signals := map[];
    }

    /** `add_signal`: replaces the record of `itemId`; the band values are
        looked up by key before anything is stored, so a missing one changes
        nothing. */
    method AddSignal(itemId: string, itemName: string, signalType: string, price: real,
                     openPrice: real, closePrice: real, volume: real,
                     bollValues: map<string, real>, timestamp: int) returns (ok: bool)
      modifies this
      ensures ok <==> "middle" in bollValues && "upper" in bollValues && "lower" in bollValues
      ensures ok ==> signals == old(signals)[itemId := SignalRecord(
                        itemName, signalType, price, openPrice, closePrice, volume,
                        bollValues["middle"], bollValues["upper"], bollValues["lower"], timestamp)]
      ensures ok ==> forall id :: id != itemId ==>
                       (id in signals <==> id in old(signals))
                       && (id in signals ==> signals[id] == old(signals)[id])
      ensures !ok ==> signals == old(signals)
    {
      if "middle" in bollValues && "upper" in bollValues && "lower" in bollValues {
        signals := signals[itemId := SignalRecord(
          itemName, signalType, price, openPrice, closePrice, volume,
          bollValues["middle"], bollValues["upper"], bollValues["lower"], timestamp)];
        ok := true;
      } else {
        ok := false;
      }
    }

    /** `clear_signals`. */
    method ClearSignals()
      modifies this
      ensures signals == map[]
    {
      signals := map[];
    }

    /** `save_to_markdown`: nothing to save gives no path; otherwise the path
        of the new file, unless writing it fails. */
    method SaveToMarkdown(dir: string, stamp: string, writeOk: bool) returns (path: Option<string>)
      ensures signals == map[] ==> path == None
      ensures signals != map[] ==>
                path == if writeOk then Some(dir + "/signals_" + stamp + ".md") else None
    {
      if signals == map[] {
        return None;
      }
      if !writeOk {
        return None;
      }
      path := Some(dir + "/signals_" + stamp + ".md");
    }
  }
}
