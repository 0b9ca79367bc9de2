/** The median used by the comparable-booking estimator (pandas'
    `Series.median` and numpy's `median`): sort the values; the middle one
    for an odd count, the mean of the two middle ones for an even count. */
module Statistics {

  predicate Ascending(s: seq<real>) {
    forall i, j :: 0 <= i <= j < |s| ==> s[i] <= s[j]
  }

  /** Puts `x` into an ascending sequence. */
  function InsertAscending(x: real, s: seq<real>): (r: seq<real>)
    requires Ascending(s)
    ensures Ascending(r)
    ensures multiset(r) == multiset(s) + multiset{x}
    ensures |r| == |s| + 1
    ensures r[0] == if s == [] || x <= s[0] then x else s[0]
  {
    if s == [] || x <= s[0] then [x] + s
    else
      var rest := InsertAscending(x, s[1..]);
      assert s == [s[0]] + s[1..];
      [s[0]] + rest
  }

  /** The values in ascending order. */
  function Sorted(xs: seq<real>): (r: seq<real>)
    ensures Ascending(r)
    ensures multiset(r) == multiset(xs)
  {
    if xs == [] then []
    else
      assert xs == [xs[0]] + xs[1..];
      InsertAscending(xs[0], Sorted(xs[1..]))
  }

  /** Median of a non-empty collection of values. */
  function Median(xs: seq<real>): real
    requires |xs| > 0
  {
    var s := Sorted(xs);
    var mid := |s| / 2;
    if |s| % 2 == 1 then s[mid] else (s[mid - 1] + s[mid]) / 2.0
  }

  function Min(xs: seq<real>): (m: real)
    requires |xs| > 0
    ensures m in xs
    ensures forall i :: 0 <= i < |xs| ==> m <= xs[i]
  {
    if |xs| == 1 then xs[0]
    else
      var rest := Min(xs[1..]);
      if xs[0] <= rest then xs[0] else rest
  }

  function Max(xs: seq<real>): (m: real)
    requires |xs| > 0
    ensures m in xs
    ensures forall i :: 0 <= i < |xs| ==> xs[i] <= m
  {
    if |xs| == 1 then xs[0]
    else
      var rest := Max(xs[1..]);
      if xs[0] >= rest then xs[0] else rest
  }

  /** Sorting keeps every value between the smallest and the largest. */
  lemma SortedWithinBounds(xs: seq<real>, k: nat)
    requires k < |xs|
    ensures |Sorted(xs)| == |xs|
    ensures Min(xs) <= Sorted(xs)[k] <= Max(xs)
  {
    var s := Sorted(xs);
    assert |s| == |multiset(s)| == |multiset(xs)| == |xs|;
    assert s[k] in multiset(xs);
    var i :| 0 <= i < |xs| && xs[i] == s[k];
  }

  /** For an odd count the median is one of the values; for an even count
      it is the mean of two of them. */
  lemma MedianOfValues(xs: seq<real>)
    requires |xs| > 0
    ensures |xs| % 2 == 1 ==> Median(xs) in xs
    ensures |xs| % 2 == 0 ==>
      exists i, j :: 0 <= i < |xs| && 0 <= j < |xs| && Median(xs) == (xs[i] + xs[j]) / 2.0
  {
    var s := Sorted(xs);
    assert |s| == |multiset(s)| == |multiset(xs)| == |xs|;
    var mid := |xs| / 2;
    assert s[mid] in multiset(xs);
    if |xs| % 2 == 0 {
      assert s[mid - 1] in multiset(xs);
      var i :| 0 <= i < |xs| && xs[i] == s[mid - 1];
      var j :| 0 <= j < |xs| && xs[j] == s[mid];
      assert Median(xs) == (xs[i] + xs[j]) / 2.0;
    }
  }

  /** The median lies between the smallest and the largest value. */
  lemma MedianBetweenMinAndMax(xs: seq<real>)
    requires |xs| > 0
    ensures Min(xs) <= Median(xs) <= Max(xs)
  {
    var mid := |xs| / 2;
    SortedWithinBounds(xs, mid);
    if |xs| % 2 == 0 {
      SortedWithinBounds(xs, mid - 1);
    }
  }

  /** Two ascending sequences with the same values are the same sequence. */
  lemma {:induction false} AscendingUnique(s: seq<real>, t: seq<real>)
    requires Ascending(s) && Ascending(t) && multiset(s) == multiset(t)
    ensures s == t
    decreases |s|
  {
    if s != [] {
      assert |t| == |s| by {
        assert |multiset(t)| == |multiset(s)|;
      }
      assert s[0] in multiset(t);
      assert t[0] in multiset(s);
      assert s[0] == t[0];
      assert s == [s[0]] + s[1..];
      assert t == [t[0]] + t[1..];
      assert multiset(s[1..]) == multiset(s) - multiset{s[0]};
      assert multiset(t[1..]) == multiset(t) - multiset{t[0]};
      AscendingUnique(s[1..], t[1..]);
    }
  }

  /** The median is read off any ascending arrangement of the values: the
      middle one, or the mean of the two middle ones. */
  lemma MedianOfAscending(xs: seq<real>, t: seq<real>)
    requires |xs| > 0 && Ascending(t) && multiset(t) == multiset(xs)
    ensures |t| == |xs|
    ensures Median(xs) == if |t| % 2 == 1 then t[|t| / 2] else (t[|t| / 2 - 1] + t[|t| / 2]) / 2.0
  {
    assert |t| == |multiset(t)| == |multiset(xs)| == |xs|;
    AscendingUnique(Sorted(xs), t);
  }

  /** The median depends only on the values, not on their order. */
  lemma MedianOfPermutation(xs: seq<real>, ys: seq<real>)
    requires |xs| > 0 && multiset(xs) == multiset(ys)
    ensures |ys| > 0
    ensures Median(xs) == Median(ys)
  {
    assert |ys| == |multiset(ys)| == |multiset(xs)| == |xs|;
    AscendingUnique(Sorted(xs), Sorted(ys));
  }

  /** When every value is the same, that value is the median. */
  lemma MedianOfConstant(xs: seq<real>, v: real)
    requires |xs| > 0 && forall i :: 0 <= i < |xs| ==> xs[i] == v
    ensures Median(xs) == v
  {
    MedianBetweenMinAndMax(xs);
  }
}
