/** `clean_filename` of `utils/file_utils.py`: replace the characters Windows
    forbids in file names with `_`, collapse runs of whitespace and `_` into one
    `_`, and strip `_` from both ends. */
module FileUtils {
  import opened Text

  /** The class `[<>:"/\\|?*]`. */
  predicate Invalid(c: char)
  {
    c in "<>:\"/\\|?*"
  }

  /** The class `[\s_]`. */
  predicate Separator(c: char)
  {
    IsSpace(c) || c == '_'
  }

  /** The characters that survive every stage unchanged. */
  predicate Keep(c: char)
  {
    !Invalid(c) && !Separator(c)
  }

  /** `re.sub(invalid_chars, '_', s)`. */
  function ReplaceInvalid(s: string): (r: string)
    ensures |r| == |s|
    ensures forall i :: 0 <= i < |s| ==> r[i] == if Invalid(s[i]) then '_' else s[i]
  {
    seq(|s|, i requires 0 <= i < |s| => if Invalid(s[i]) then '_' else s[i])
  }

  /** The text after the longest prefix whose characters all satisfy `p`. */
  function DropWhile(s: string, p: char -> bool): (r: string)
    ensures |r| <= |s| && r == s[|s| - |r|..]
    ensures r == [] || !p(r[0])
    ensures forall i :: 0 <= i < |s| - |r| ==> p(s[i])
  {
    if s != [] && p(s[0]) then DropWhile(s[1..], p) else s
  }

  /** The text after a leading run of separators. */
  function DropSeparators(s: string): (r: string)
    ensures |r| <= |s| && r == s[|s| - |r|..]
    ensures r == [] || !Separator(r[0])
    ensures forall i :: 0 <= i < |s| - |r| ==> Separator(s[i])
    ensures s != [] && Separator(s[0]) ==> r == DropSeparators(s[1..])
    ensures !(s != [] && Separator(s[0])) ==> r == s
  {
    DropWhile(s, Separator)
  }

  /** `re.sub(r'[\s_]+', '_', s)`: each maximal run of separators becomes one `_`. */
  function Collapse(s: string): (r: string)
    ensures s == [] <==> r == []
    ensures s != [] ==> r[0] == if Separator(s[0]) then '_' else s[0]
    decreases |s|
  {
    if s == [] then []
    else if Separator(s[0]) then "_" + Collapse(DropSeparators(s[1..]))
    else [s[0]] + Collapse(s[1..])
  }

  /** `s.lstrip('_')`. */
  function TrimStart(s: string): (r: string)
    ensures |r| <= |s| && r == s[|s| - |r|..]
    ensures r == [] || r[0] != '_'
    ensures forall i :: 0 <= i < |s| - |r| ==> s[i] == '_'
  {
    if s != [] && s[0] == '_' then TrimStart(s[1..]) else s
  }

  /** `s.rstrip('_')`. */
  function TrimEnd(s: string): (r: string)
    ensures |r| <= |s| && r == s[..|r|]
    ensures r == [] || r[|r| - 1] != '_'
    ensures forall i :: |r| <= i < |s| ==> s[i] == '_'
  {
    if s != [] && s[|s| - 1] == '_' then TrimEnd(s[..|s| - 1]) else s
  }

  /** `s.strip('_')`. */
  function Strip(s: string): string
  {
    TrimEnd(TrimStart(s))
  }

  /** `clean_filename`. */
  function CleanFilename(name: string): string
  {
    Strip(Collapse(ReplaceInvalid(name)))
  }

  predicate NoInvalid(s: string)
  {
    forall i :: 0 <= i < |s| ==> !Invalid(s[i])
  }

  predicate NoDoubleUnderscore(s: string)
  {
    forall i :: 0 <= i < |s| - 1 ==> !(s[i] == '_' && s[i + 1] == '_')
  }

  /** The shape of every cleaned name. */
  predicate IsClean(s: string)
  {
    NoInvalid(s) && NoSpace(s) && NoDoubleUnderscore(s)
    && (s != [] ==> s[0] != '_' && s[|s| - 1] != '_')
  }

  /** The kept characters of `s`, in order. */
  function Kept(s: string): string
  {
    if s == [] then [] else (if Keep(s[0]) then [s[0]] else []) + Kept(s[1..])
  }

  lemma {:induction false} KeptAppend(a: string, b: string)
    ensures Kept(a + b) == Kept(a) + Kept(b)
  {
    if a != [] {
      assert (a + b)[0] == a[0];
      assert (a + b)[1..] == a[1..] + b;
      KeptAppend(a[1..], b);
      var head := if Keep(a[0]) then [a[0]] else [];
      assert Kept(a + b) == head + Kept(a[1..] + b);
      assert Kept(a) == head + Kept(a[1..]);
    } else {
      assert a + b == b;
    }
  }

  lemma {:induction false} KeptOfSeparators(s: string)
    requires forall i :: 0 <= i < |s| ==> Separator(s[i])
    ensures Kept(s) == []
  {
    if s != [] {
      KeptOfSeparators(s[1..]);
    }
  }

  lemma {:induction false} KeptReplaceInvalid(s: string)
    ensures Kept(ReplaceInvalid(s)) == Kept(s)
  {
    if s != [] {
      var r := ReplaceInvalid(s);
      assert r[1..] == ReplaceInvalid(s[1..]);
      KeptReplaceInvalid(s[1..]);
    }
  }

  lemma KeptDropSeparators(s: string)
    ensures Kept(DropSeparators(s)) == Kept(s)
  {
    KeptAfterSeparators(s, |s| - |DropSeparators(s)|);
  }

  /** Dropping a leading run of separators keeps the same characters. */
  lemma {:induction false} KeptAfterSeparators(s: string, k: nat)
    requires k <= |s| && forall i :: 0 <= i < k ==> Separator(s[i])
    ensures Kept(s[k..]) == Kept(s)
  {
    if k > 0 {
      KeptAfterSeparators(s[1..], k - 1);
      assert s[1..][k - 1..] == s[k..];
      assert !Keep(s[0]);
      assert Kept(s) == Kept(s[1..]);
    }
  }

  lemma {:induction false} KeptCollapse(s: string)
    ensures Kept(Collapse(s)) == Kept(s)
    decreases |s|
  {
    if s != [] {
      if Separator(s[0]) {
        var t := DropSeparators(s[1..]);
        KeptCollapse(t);
        KeptAppend("_", Collapse(t));
        KeptDropSeparators(s[1..]);
      } else {
        KeptCollapse(s[1..]);
        KeptAppend([s[0]], Collapse(s[1..]));
      }
    }
  }

  lemma KeptTrimStart(s: string)
    ensures Kept(TrimStart(s)) == Kept(s)
  {
    KeptAfterSeparators(s, |s| - |TrimStart(s)|);
  }

  lemma KeptTrimEnd(s: string)
    ensures Kept(TrimEnd(s)) == Kept(s)
  {
    var b := TrimEnd(s);
    var post := s[|b|..];
    assert s == b + post;
    assert Kept(post) == [] by {
      assert forall i :: 0 <= i < |post| ==> post[i] == s[|b| + i];
      KeptOfSeparators(post);
    }
    KeptAppend(b, post);
  }

  lemma KeptStrip(s: string)
    ensures Kept(Strip(s)) == Kept(s)
  {
    KeptTrimStart(s);
    KeptTrimEnd(TrimStart(s));
  }

  /** Every character other than the forbidden ones, whitespace and `_` is
      kept, in its original order. */
  lemma KeepsOtherCharacters(name: string)
    ensures Kept(CleanFilename(name)) == Kept(name)
  {
    KeptReplaceInvalid(name);
    KeptCollapse(ReplaceInvalid(name));
    KeptStrip(Collapse(ReplaceInvalid(name)));
  }

  /** Collapsing leaves only `_` and kept characters of its input, and never
      two `_` in a row. */
  lemma CollapseShape(s: string)
    ensures forall c :: c in Collapse(s) ==> c == '_' || (c in s && !Separator(c))
    ensures NoDoubleUnderscore(Collapse(s))
  {
    CollapseChars(s);
    CollapseNoDouble(s);
  }

  lemma {:induction false} CollapseChars(s: string)
    ensures forall c :: c in Collapse(s) ==> c == '_' || (c in s && !Separator(c))
    decreases |s|
  {
    if s != [] {
      if Separator(s[0]) {
        var t := DropSeparators(s[1..]);
        CollapseChars(t);
        assert Collapse(s) == "_" + Collapse(t);
        SuffixChars(s, t);
      } else {
        var t := s[1..];
        CollapseChars(t);
        assert Collapse(s) == [s[0]] + Collapse(t);
        SuffixChars(s, t);
      }
    }
  }

  lemma SuffixChars(s: string, t: string)
    requires |t| <= |s| && t == s[|s| - |t|..]
    ensures forall c :: c in t ==> c in s
  {
    forall c | c in t
      ensures c in s
    {
      var j :| 0 <= j < |t| && t[j] == c;
      assert s[|s| - |t| + j] == c;
    }
  }

  /** A text of the form `[x] + t` has no doubled `_` when `t` has none and
      does not start with `_` after an `x == '_'`. */
  lemma ConsNoDouble(x: char, t: string)
    requires NoDoubleUnderscore(t) && (x == '_' && t != [] ==> t[0] != '_')
    ensures NoDoubleUnderscore([x] + t)
  {
    var r := [x] + t;
    forall i | 0 <= i < |r| - 1
      ensures !(r[i] == '_' && r[i + 1] == '_')
    {
      if i > 0 {
        assert r[i] == t[i - 1] && r[i + 1] == t[i];
      }
    }
  }

  lemma {:induction false} CollapseNoDouble(s: string)
    ensures NoDoubleUnderscore(Collapse(s))
    decreases |s|
  {
    if s != [] {
      if Separator(s[0]) {
        var t := DropSeparators(s[1..]);
        CollapseNoDouble(t);
        assert Collapse(s) == "_" + Collapse(t);
        ConsNoDouble('_', Collapse(t));
      } else {
        CollapseNoDouble(s[1..]);
        assert Collapse(s) == [s[0]] + Collapse(s[1..]);
        ConsNoDouble(s[0], Collapse(s[1..]));
      }
    }
  }

  /** A slice keeps the three character-level properties. */
  lemma SliceKeepsShape(s: string, a: nat, b: nat)
    requires a <= b <= |s| && NoInvalid(s) && NoSpace(s) && NoDoubleUnderscore(s)
    ensures NoInvalid(s[a..b]) && NoSpace(s[a..b]) && NoDoubleUnderscore(s[a..b])
  {
    var t := s[a..b];
    forall i | 0 <= i < |t| - 1
      ensures !(t[i] == '_' && t[i + 1] == '_')
    {
      assert t[i] == s[a + i] && t[i + 1] == s[a + i + 1];
    }
  }

  /** Collapsing a text without forbidden characters leaves none, and no
      whitespace and no doubled `_`. */
  lemma CollapseClean(s: string)
    requires NoInvalid(s)
    ensures NoInvalid(Collapse(s)) && NoSpace(Collapse(s)) && NoDoubleUnderscore(Collapse(s))
  {
    var r := Collapse(s);
    CollapseShape(s);
    forall i | 0 <= i < |r|
      ensures !Invalid(r[i]) && !IsSpace(r[i])
    {
      assert r[i] in r;
    }
  }

  /** The three character-level properties together. */
  predicate Plain(s: string)
  {
    NoInvalid(s) && NoSpace(s) && NoDoubleUnderscore(s)
  }

  lemma TrimStartPlain(s: string)
    requires Plain(s)
    ensures Plain(TrimStart(s))
  {
    var a := TrimStart(s);
    SliceKeepsShape(s, |s| - |a|, |s|);
    assert a == s[|s| - |a|..|s|];
  }

  lemma TrimEndPlain(s: string)
    requires Plain(s)
    ensures Plain(TrimEnd(s))
  {
    var b := TrimEnd(s);
    SliceKeepsShape(s, 0, |b|);
    assert b == s[0..|b|];
  }

  /** Stripping a plain text leaves it plain, with no `_` at either end. */
  lemma StripClean(s: string)
    requires Plain(s)
    ensures IsClean(Strip(s))
  {
    var a := TrimStart(s);
    TrimStartPlain(s);
    var b := TrimEnd(a);
    TrimEndPlain(a);
    assert b != [] ==> b[0] == a[0];
  }

  /** The output holds no forbidden character and no whitespace, has no two
      `_` in a row, and neither starts nor ends with `_`. */
  lemma CleanFilenameIsClean(name: string)
    ensures IsClean(CleanFilename(name))
  {
    CollapseClean(ReplaceInvalid(name));
    StripClean(Collapse(ReplaceInvalid(name)));
  }

  lemma ReplaceInvalidOfClean(s: string)
    requires NoInvalid(s)
    ensures ReplaceInvalid(s) == s
  {
  }

  lemma TailPlain(s: string)
    requires s != [] && NoSpace(s) && NoDoubleUnderscore(s)
    ensures NoSpace(s[1..]) && NoDoubleUnderscore(s[1..])
  {
    var t := s[1..];
    forall i | 0 <= i < |t| - 1
      ensures !(t[i] == '_' && t[i + 1] == '_')
    {
      assert t[i] == s[i + 1] && t[i + 1] == s[i + 2];
    }
  }

  lemma {:induction false} CollapseOfClean(s: string)
    requires NoSpace(s) && NoDoubleUnderscore(s)
    ensures Collapse(s) == s
    decreases |s|
  {
    if s != [] {
      var t := s[1..];
      TailPlain(s);
      CollapseOfClean(t);
      if Separator(s[0]) {
        assert s[0] == '_';
        assert DropSeparators(t) == t by {
          assert t == [] || t[0] == s[1];
        }
        assert Collapse(s) == "_" + Collapse(t);
        assert s == "_" + t;
      } else {
        assert Collapse(s) == [s[0]] + Collapse(t);
        assert s == [s[0]] + t;
      }
    }
  }

  /** Cleaning a cleaned name changes nothing. */
  lemma Idempotent(name: string)
    ensures CleanFilename(CleanFilename(name)) == CleanFilename(name)
  {
    var r := CleanFilename(name);
    CleanFilenameIsClean(name);
    ReplaceInvalidOfClean(r);
    CollapseOfClean(r);
    assert TrimStart(r) == r;
    assert TrimEnd(r) == r;
  }
}
