/** Shared building blocks: optional values (pandas NaN), filtering of
    optional entries (pandas `dropna`, a loop that skips entries), and sums,
    maxima and minima of real sequences. */
module Common {

  /** A value that may be missing; `None` plays the part of NaN / None. */
  datatype Option<T> = None | Some(value: T)

  /** The one-element sequence of a present value, the empty one otherwise. */
  function OptToSeq<T>(o: Option<T>): seq<T>
  {
    match o
    case None => []
    case Some(v) => [v]
  }

  /** The values of the present entries of `xs`, in their original order. */
  function Compact<T>(xs: seq<Option<T>>): (r: seq<T>)
    ensures |r| <= |xs|
  {
    if xs == [] then [] else Compact(xs[..|xs| - 1]) + OptToSeq(xs[|xs| - 1])
  }

  /** `f` applied to each pair of consecutive entries: entry `j` combines
      entries `j` and `j + 1`, so the first entry is never the later one. */
  function Pairwise<R, S>(xs: seq<R>, f: (R, R) -> S): (r: seq<S>)
    ensures |r| == if xs == [] then 0 else |xs| - 1
    ensures forall j :: 0 <= j < |r| ==> r[j] == f(xs[j], xs[j + 1])
  {
    if |xs| < 2 then []
    else seq(|xs| - 1, j requires 0 <= j < |xs| - 1 => f(xs[j], xs[j + 1]))
  }

  /** The positions of the present entries of `xs`, in increasing order. */
  function SomeIndices<T>(xs: seq<Option<T>>): seq<nat>
  {
    if xs == [] then []
    else SomeIndices(xs[..|xs| - 1]) + (if xs[|xs| - 1].Some? then [|xs| - 1] else [])
  }

  lemma CompactAppend<T>(xs: seq<Option<T>>, x: Option<T>)
    ensures Compact(xs + [x]) == Compact(xs) + OptToSeq(x)
  {
    assert (xs + [x])[..|xs|] == xs;
  }

  /** One more entry of a prefix adds that entry's value, if present. */
  lemma CompactPrefixStep<T>(xs: seq<Option<T>>, i: nat)
    requires i < |xs|
    ensures Compact(xs[..i + 1]) == Compact(xs[..i]) + OptToSeq(xs[i])
  {
    assert xs[..i + 1][..i] == xs[..i];
  }

  /** `Compact` keeps exactly the present entries, in order: the m-th kept value
      sits at the m-th present position, positions strictly increase, and every
      present position is among them. */
  lemma CompactIndexed<T>(xs: seq<Option<T>>)
    ensures |SomeIndices(xs)| == |Compact(xs)|
    ensures forall m :: 0 <= m < |SomeIndices(xs)| ==>
              SomeIndices(xs)[m] < |xs| && xs[SomeIndices(xs)[m]] == Some(Compact(xs)[m])
    ensures forall m1, m2 :: 0 <= m1 < m2 < |SomeIndices(xs)| ==>
              SomeIndices(xs)[m1] < SomeIndices(xs)[m2]
    ensures forall i :: 0 <= i < |xs| && xs[i].Some? ==> i in SomeIndices(xs)
  {
    IndicesValues(xs);
    IndicesIncrease(xs);
    IndicesCover(xs);
  }

  lemma {:induction false} IndicesValues<T>(xs: seq<Option<T>>)
    ensures |SomeIndices(xs)| == |Compact(xs)|
    ensures forall m :: 0 <= m < |SomeIndices(xs)| ==>
              SomeIndices(xs)[m] < |xs| && xs[SomeIndices(xs)[m]] == Some(Compact(xs)[m])
  {
    if xs != [] {
      var n := |xs| - 1;
      var init := xs[..n];
      IndicesValues(init);
      var ids, ids0 := SomeIndices(xs), SomeIndices(init);
      var c, c0 := Compact(xs), Compact(init);
      assert ids == ids0 + (if xs[n].Some? then [n] else []);
      assert c == c0 + OptToSeq(xs[n]);
      forall m | 0 <= m < |ids|
        ensures ids[m] < |xs| && xs[ids[m]] == Some(c[m])
      {
        if m < |ids0| {
          assert ids[m] == ids0[m] && c[m] == c0[m];
          assert init[ids0[m]] == xs[ids0[m]];
        }
      }
    }
  }

  lemma {:induction false} IndicesIncrease<T>(xs: seq<Option<T>>)
    ensures forall m :: 0 <= m < |SomeIndices(xs)| ==> SomeIndices(xs)[m] < |xs|
    ensures forall m1, m2 :: 0 <= m1 < m2 < |SomeIndices(xs)| ==>
              SomeIndices(xs)[m1] < SomeIndices(xs)[m2]
  {
    if xs != [] {
      var n := |xs| - 1;
      var init := xs[..n];
      IndicesIncrease(init);
      var ids, ids0 := SomeIndices(xs), SomeIndices(init);
      assert ids == ids0 + (if xs[n].Some? then [n] else []);
    }
  }

  lemma {:induction false} IndicesCover<T>(xs: seq<Option<T>>)
    ensures forall i :: 0 <= i < |xs| && xs[i].Some? ==> i in SomeIndices(xs)
  {
    if xs != [] {
      var n := |xs| - 1;
      var init := xs[..n];
      IndicesCover(init);
      var ids, ids0 := SomeIndices(xs), SomeIndices(init);
      assert ids == ids0 + (if xs[n].Some? then [n] else []);
      forall i | 0 <= i < |xs| && xs[i].Some?
        ensures i in ids
      {
        if i < n {
          assert init[i] == xs[i];
        }
      }
    }
  }

  /** Every kept value comes from a present entry. */
  lemma CompactMember<T>(xs: seq<Option<T>>, v: T)
    requires v in Compact(xs)
    ensures exists i :: 0 <= i < |xs| && xs[i] == Some(v)
  {
    CompactIndexed(xs);
    var m :| 0 <= m < |Compact(xs)| && Compact(xs)[m] == v;
    assert xs[SomeIndices(xs)[m]] == Some(v);
  }

  /** Nothing is kept exactly when every entry is missing. */
  lemma {:induction false} CompactEmpty<T>(xs: seq<Option<T>>)
    ensures Compact(xs) == [] <==> forall i :: 0 <= i < |xs| ==> xs[i].None?
  {
    if xs != [] {
      var init := xs[..|xs| - 1];
      CompactEmpty(init);
      assert forall i :: 0 <= i < |init| ==> init[i] == xs[i];
    }
  }

  /** When every entry is present, everything is kept, position for position. */
  lemma {:induction false} CompactAllPresent<T>(xs: seq<Option<T>>)
    requires forall i :: 0 <= i < |xs| ==> xs[i].Some?
    ensures |Compact(xs)| == |xs|
    ensures forall i :: 0 <= i < |xs| ==> Compact(xs)[i] == xs[i].value
  {
    if xs != [] {
      var init := xs[..|xs| - 1];
      CompactAllPresent(init);
    }
  }

  /** Entries all present, with values `ys`, compact to `ys`. */
  lemma CompactValues<T>(xs: seq<Option<T>>, ys: seq<T>)
    requires |xs| == |ys| && forall i :: 0 <= i < |xs| ==> xs[i] == Some(ys[i])
    ensures Compact(xs) == ys
  {
    CompactAllPresent(xs);
  }

  /** A present last entry is the last kept value; a missing one adds nothing. */
  lemma CompactLast<T>(xs: seq<Option<T>>)
    requires xs != []
    ensures xs[|xs| - 1].Some? ==>
              Compact(xs) != [] && Compact(xs)[|Compact(xs)| - 1] == xs[|xs| - 1].value
    ensures xs[|xs| - 1].None? ==> Compact(xs) == Compact(xs[..|xs| - 1])
  {
  }

  /** The last two present entries, when the last two entries are present. */
  lemma CompactLastTwo<T>(xs: seq<Option<T>>)
    requires |xs| >= 2 && xs[|xs| - 1].Some? && xs[|xs| - 2].Some?
    ensures |Compact(xs)| >= 2
    ensures Compact(xs)[|Compact(xs)| - 1] == xs[|xs| - 1].value
    ensures Compact(xs)[|Compact(xs)| - 2] == xs[|xs| - 2].value
  {
    var init := xs[..|xs| - 1];
    CompactLast(init);
    assert Compact(xs) == Compact(init) + [xs[|xs| - 1].value];
  }

  /** A single present entry is all that is kept. */
  lemma {:induction false} CompactSingle<T>(xs: seq<Option<T>>, j: nat)
    requires j < |xs| && xs[j].Some?
    requires forall i :: 0 <= i < |xs| && i != j ==> xs[i].None?
    ensures Compact(xs) == [xs[j].value]
  {
    var init := xs[..|xs| - 1];
    if j == |xs| - 1 {
      CompactEmpty(init);
    } else {
      CompactSingle(init, j);
    }
  }

  function Sum(xs: seq<real>): real
  {
    if xs == [] then 0.0 else Sum(xs[..|xs| - 1]) + xs[|xs| - 1]
  }

  lemma SumAppend(xs: seq<real>, x: real)
    ensures Sum(xs + [x]) == Sum(xs) + x
  {
    assert (xs + [x])[..|xs|] == xs;
  }

  /** A sum lies between |xs| times any lower bound and |xs| times any upper bound. */
  lemma {:induction false} SumBounds(xs: seq<real>, lo: real, hi: real)
    requires forall i :: 0 <= i < |xs| ==> lo <= xs[i] <= hi
    ensures |xs| as real * lo <= Sum(xs) <= |xs| as real * hi
  {
    if xs != [] {
      SumBounds(xs[..|xs| - 1], lo, hi);
    }
  }

  /** The sum of |xs| copies of the same value. */
  lemma {:induction false} SumConstant(xs: seq<real>, c: real)
    requires forall i :: 0 <= i < |xs| ==> xs[i] == c
    ensures Sum(xs) == |xs| as real * c
  {
    if xs != [] {
      SumConstant(xs[..|xs| - 1], c);
    }
  }

  function Max(xs: seq<real>): (m: real)
    requires xs != []
    ensures forall i :: 0 <= i < |xs| ==> xs[i] <= m
    ensures exists i :: 0 <= i < |xs| && xs[i] == m
  {
    if |xs| == 1 then xs[0]
    else
      var m := Max(xs[..|xs| - 1]);
      assert forall i :: 0 <= i < |xs| - 1 ==> xs[..|xs| - 1][i] == xs[i];
      if m < xs[|xs| - 1] then xs[|xs| - 1] else m
  }

  function Min(xs: seq<real>): (m: real)
    requires xs != []
    ensures forall i :: 0 <= i < |xs| ==> m <= xs[i]
    ensures exists i :: 0 <= i < |xs| && xs[i] == m
  {
    if |xs| == 1 then xs[0]
    else
      var m := Min(xs[..|xs| - 1]);
      assert forall i :: 0 <= i < |xs| - 1 ==> xs[..|xs| - 1][i] == xs[i];
      if xs[|xs| - 1] < m then xs[|xs| - 1] else m
  }

  /** The mean of a non-empty sequence lies between its minimum and maximum. */
  lemma {:induction false} MeanBetweenMinMax(xs: seq<real>)
    requires xs != []
    ensures Min(xs) <= Sum(xs) / |xs| as real <= Max(xs)
  {
    var lo, hi := Min(xs), Max(xs);
    SumBounds(xs, lo, hi);
    DivBetween(Sum(xs), |xs| as real, lo, hi);
  }

  /** Dividing by a positive count keeps a bound scaled by that count. */
  lemma {:induction false} DivBetween(s: real, n: real, lo: real, hi: real)
    requires n > 0.0 && n * lo <= s <= n * hi
    ensures lo <= s / n <= hi
  {
    var q := s / n;
    assert s == n * q;
    assert n * lo <= n * q <= n * hi;
  }
}
