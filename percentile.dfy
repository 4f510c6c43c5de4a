/**
 * The percentile that `np.percentile` computes with its default ("linear")
 * method: sort the values, place the p-th percentile at position
 * h = (n - 1) * p / 100 of the sorted sequence, and interpolate linearly
 * between the two neighbouring order statistics.
 * Exact real arithmetic stands for floating point.
 */
module Quantiles {

  predicate IsSorted(s: seq<real>)
  {
    forall i, j :: 0 <= i < j < |s| ==> s[i] <= s[j]
  }

  /** Putting a value no larger than the first in front of a sorted sequence keeps it sorted. */
  lemma ConsSorted(h: real, s: seq<real>)
    requires IsSorted(s) && (s != [] ==> h <= s[0])
    ensures IsSorted([h] + s)
  {
    var r := [h] + s;
    forall i, j | 0 <= i < j < |r|
      ensures r[i] <= r[j]
    {
      if i > 0 {
        assert r[i] == s[i - 1] && r[j] == s[j - 1];
      } else {
        assert r[j] == s[j - 1];
      }
    }
  }

  /** Inserts x into a sorted sequence, keeping it sorted. */
  function Insert(x: real, s: seq<real>): (r: seq<real>)
    requires IsSorted(s)
    ensures |r| == |s| + 1
    ensures multiset(r) == multiset(s) + multiset{x}
    ensures IsSorted(r)
    ensures r[0] == if s == [] || x <= s[0] then x else s[0]
  {
    if s == [] || x <= s[0] then
      ConsSorted(x, s);
      [x] + s
    else
      var rest := Insert(x, s[1..]);
      ConsSorted(s[0], rest);
      assert s == [s[0]] + s[1..];
      [s[0]] + rest
  }

  /** The values of a column in ascending order (what numpy sorts before it interpolates). */
  function Sort(s: seq<real>): (r: seq<real>)
    ensures |r| == |s|
    ensures multiset(r) == multiset(s)
    ensures IsSorted(r)
  {
    if s == [] then []
    else
      assert s == [s[0]] + s[1..];
      Insert(s[0], Sort(s[1..]))
  }

  /** The first element of a sorted sequence is its smallest, the last its largest. */
  lemma SortedEnds(a: seq<real>, x: real)
    requires IsSorted(a) && x in multiset(a)
    ensures a[0] <= x <= a[|a| - 1]
  {
    assert x in a;
    var k :| 0 <= k < |a| && a[k] == x;
  }

  /** Splitting off the first element of a sequence. */
  lemma HeadAndTail(a: seq<real>)
    requires |a| > 0
    ensures a == [a[0]] + a[1..]
    ensures a[0] in multiset(a)
    ensures multiset(a[1..]) == multiset(a) - multiset{a[0]}
  {
    assert a == [a[0]] + a[1..];
  }

  /** Two sorted arrangements of the same values are the same sequence. */
  lemma {:induction false} SortedUnique(a: seq<real>, b: seq<real>)
    requires IsSorted(a) && IsSorted(b)
    requires multiset(a) == multiset(b)
    ensures a == b
  {
    assert |b| == |a| by { assert |multiset(a)| == |multiset(b)|; }
    if a != [] {
      HeadAndTail(a);
      HeadAndTail(b);
      SortedEnds(b, a[0]);
      SortedEnds(a, b[0]);
      assert a[0] == b[0];
      assert IsSorted(a[1..]) && IsSorted(b[1..]);
      SortedUnique(a[1..], b[1..]);
    }
  }

  /** Sorting a sequence that is already sorted changes nothing. */
  lemma SortOfSorted(s: seq<real>)
    requires IsSorted(s)
    ensures Sort(s) == s
  {
    SortedUnique(Sort(s), s);
  }

  lemma MulMonotone(c: real, x: real, y: real)
    requires c >= 0.0 && x <= y
    ensures c * x <= c * y
  {
    assert c * y - c * x == c * (y - x);
  }

  /** The real position h = (n - 1) * p / 100 of the p-th percentile in a sorted sequence of length n. */
  function Position(n: nat, p: real): real
  {
    (n - 1) as real * p / 100.0
  }

  /** The position of a percentile in [0, 100] is a valid real index: 0 <= h <= n - 1. */
  lemma PositionBounds(n: nat, p: real)
    requires n > 0 && 0.0 <= p <= 100.0
    ensures 0.0 <= Position(n, p) <= (n - 1) as real
  {
    var c := (n - 1) as real;
    var cp := c * p;
    assert Position(n, p) == cp / 100.0;
    MulMonotone(c, 0.0, p);
    assert c * 0.0 == 0.0;
    MulMonotone(c, p, 100.0);
    assert 0.0 <= cp;
    assert cp <= c * 100.0;
  }

  lemma PositionMonotone(n: nat, p1: real, p2: real)
    requires n > 0 && 0.0 <= p1 <= p2 <= 100.0
    ensures Position(n, p1) <= Position(n, p2)
  {
    var c := (n - 1) as real;
    assert Position(n, p1) == (c * p1) / 100.0;
    assert Position(n, p2) == (c * p2) / 100.0;
    MulMonotone(c, p1, p2);
  }

  /**
   * Linear interpolation on a sorted sequence: with i the whole part of h
   * and f its fraction, a[i] + f * (a[i + 1] - a[i]).  When i is the last
   * index, f is 0 and the value is a[i].
   */
  function Interpolate(a: seq<real>, p: real): real
    requires |a| > 0 && 0.0 <= p <= 100.0
  {
    PositionBounds(|a|, p);
    var h := Position(|a|, p);
    var i := h.Floor;
    var f := h - i as real;
    var next := if i + 1 < |a| then a[i + 1] else a[i];
    a[i] + f * (next - a[i])
  }

  /** Interpolate with the whole part i and the fraction f of the position spelled out. */
  lemma InterpolateAt(a: seq<real>, p: real, i: nat, f: real)
    requires |a| > 0 && 0.0 <= p <= 100.0
    requires i + 1 < |a| && 0.0 <= f < 1.0 && Position(|a|, p) == i as real + f
    ensures Interpolate(a, p) == a[i] + f * (a[i + 1] - a[i])
  {
    assert Position(|a|, p).Floor == i;
  }

  /** `np.percentile(column, p)` for a non-empty column. */
  function Percentile(column: seq<real>, p: real): real
    requires |column| > 0 && 0.0 <= p <= 100.0
  {
    Interpolate(Sort(column), p)
  }

  /** The interpolated value lies between the two order statistics around h. */
  lemma InterpolateBetween(a: seq<real>, p: real)
    requires |a| > 0 && 0.0 <= p <= 100.0 && IsSorted(a)
    ensures var i := Position(|a|, p).Floor;
      && 0 <= i < |a|
      && a[i] <= Interpolate(a, p)
      && (i + 1 < |a| ==> Interpolate(a, p) <= a[i + 1])
      && (i + 1 == |a| ==> Interpolate(a, p) == a[i])
  {
    PositionBounds(|a|, p);
    var h := Position(|a|, p);
    var i := h.Floor;
    var f := h - i as real;
    assert 0.0 <= f < 1.0;
    if i + 1 < |a| {
      var d := a[i + 1] - a[i];
      assert d >= 0.0;
      assert Interpolate(a, p) == a[i] + f * d;
      assert 0.0 <= f * d <= d by {
        MulMonotone(d, f, 1.0);
        MulMonotone(d, 0.0, f);
      }
    } else {
      assert f == 0.0;
    }
  }

  /** Every percentile of a column lies between its smallest and its largest value. */
  lemma PercentileInRange(column: seq<real>, p: real)
    requires |column| > 0 && 0.0 <= p <= 100.0
    ensures var a := Sort(column);
      a[0] <= Percentile(column, p) <= a[|a| - 1]
  {
    var a := Sort(column);
    InterpolateBetween(a, p);
  }

  lemma InterpolateEnds(a: seq<real>)
    requires |a| > 0
    ensures Interpolate(a, 0.0) == a[0]
    ensures Interpolate(a, 100.0) == a[|a| - 1]
  {
    var c := (|a| - 1) as real;
    assert Position(|a|, 0.0) == 0.0 by { assert c * 0.0 == 0.0; }
    assert Position(|a|, 100.0) == c by { assert c * 100.0 / 100.0 == c; }
    assert (0.0).Floor == 0;
    assert c.Floor == |a| - 1;
  }

  /** The 0th percentile is the smallest value of the column and the 100th the largest. */
  lemma PercentileExtremes(column: seq<real>)
    requires |column| > 0
    ensures Percentile(column, 0.0) in column
    ensures Percentile(column, 100.0) in column
    ensures forall x :: x in column ==> Percentile(column, 0.0) <= x <= Percentile(column, 100.0)
  {
    var a := Sort(column);
    var n := |a|;
    InterpolateEnds(a);
    assert a[0] in multiset(a) && a[n - 1] in multiset(a);
    forall x | x in column
      ensures a[0] <= x <= a[n - 1]
    {
      assert x in multiset(column);
      SortedEnds(a, x);
    }
  }

  /** A larger p never gives a smaller percentile. */
  lemma InterpolateMonotone(a: seq<real>, p1: real, p2: real)
    requires |a| > 0 && 0.0 <= p1 <= p2 <= 100.0 && IsSorted(a)
    ensures Interpolate(a, p1) <= Interpolate(a, p2)
  {
    var n := |a|;
    var h1, h2 := Position(n, p1), Position(n, p2);
    PositionMonotone(n, p1, p2);
    var i1, i2 := h1.Floor, h2.Floor;
    InterpolateBetween(a, p1);
    InterpolateBetween(a, p2);
    if i1 == i2 {
      if i1 + 1 < n {
        var d := a[i1 + 1] - a[i1];
        assert d >= 0.0;
        var f1, f2 := h1 - i1 as real, h2 - i2 as real;
        assert f1 <= f2;
        MulMonotone(d, f1, f2);
        assert Interpolate(a, p1) == a[i1] + f1 * d;
        assert Interpolate(a, p2) == a[i1] + f2 * d;
      }
    } else {
      assert i1 < i2;
      assert a[i1 + 1] <= a[i2];
    }
  }

  lemma PercentileMonotone(column: seq<real>, p1: real, p2: real)
    requires |column| > 0 && 0.0 <= p1 <= p2 <= 100.0
    ensures Percentile(column, p1) <= Percentile(column, p2)
  {
    InterpolateMonotone(Sort(column), p1, p2);
  }

  /** The percentile depends on the values of the column only, not on the order of its rows. */
  lemma PercentileIgnoresRowOrder(c1: seq<real>, c2: seq<real>, p: real)
    requires |c1| > 0 && 0.0 <= p <= 100.0
    requires multiset(c1) == multiset(c2)
    ensures |c2| > 0 && Percentile(c1, p) == Percentile(c2, p)
  {
    assert |c2| == |c1| by { assert |multiset(c1)| == |multiset(c2)|; }
    SortedUnique(Sort(c1), Sort(c2));
  }
}
