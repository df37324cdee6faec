/**
 * Five-bin quantile cutting as `pd.qcut(x, 5, labels=...)` performs it:
 * the bin edges are the 0, .2, .4, .6, .8 and 1 quantiles of the values,
 * each computed by linear interpolation between order statistics; bin i
 * is (e[i-1], e[i]] with the first bin also holding e[0]; edges that are
 * not pairwise different make the cut fail.
 */
module Quantile {
  import opened Wrappers

  // ---------------------------------------------------------------------
  // Sorting the population (the quantile works on the sorted values)
  // ---------------------------------------------------------------------

  ghost predicate Sorted(s: seq<real>) {
    forall i, j :: 0 <= i < j < |s| ==> s[i] <= s[j]
  }

  /** Pairwise different elements. */
  predicate AllDistinct(s: seq<real>) {
    forall i, j :: 0 <= i < j < |s| ==> s[i] != s[j]
  }

  function Insert(x: real, s: seq<real>): (r: seq<real>)
    requires Sorted(s)
    ensures Sorted(r)
    ensures |r| == |s| + 1
    ensures multiset(r) == multiset(s) + multiset{x}
    ensures forall y :: y in r ==> y == x || y in s
  {
    if s == [] then [x]
    else if x <= s[0] then [x] + s
    else
      var t := Insert(x, s[1..]);
      assert s == [s[0]] + s[1..];
      assert forall k :: 0 <= k < |t| ==> s[0] <= t[k] by {
        forall k | 0 <= k < |t| ensures s[0] <= t[k] {
          assert t[k] in t;
        }
      }
      ConsSorted(s[0], t);
      assert multiset([s[0]] + t) == multiset{s[0]} + multiset(s[1..]) + multiset{x};
      assert forall y :: y in [s[0]] + t ==> y == x || y in s by {
        forall y | y in [s[0]] + t ensures y == x || y in s {
          if y != s[0] { assert y in t; }
        }
      }
      [s[0]] + t
  }

  lemma ConsSorted(a: real, t: seq<real>)
    requires Sorted(t) && forall k :: 0 <= k < |t| ==> a <= t[k]
    ensures Sorted([a] + t)
  {
    forall i, j | 0 <= i < j < |t| + 1 ensures ([a] + t)[i] <= ([a] + t)[j] {
      if i > 0 { assert ([a] + t)[i] == t[i - 1]; }
      assert ([a] + t)[j] == t[j - 1];
    }
  }

  /** Ascending order of the values: a sorted permutation of `s`. */
  function Sort(s: seq<real>): (r: seq<real>)
    ensures Sorted(r)
    ensures |r| == |s|
    ensures multiset(r) == multiset(s)
  {
    if s == [] then []
    else
      assert s == [s[0]] + s[1..];
      Insert(s[0], Sort(s[1..]))
  }

  /** The first element of the sorted values is the minimum, the last the maximum. */
  lemma SortBrackets(s: seq<real>, i: int)
    requires 0 <= i < |s|
    ensures Sort(s)[0] <= s[i] <= Sort(s)[|s| - 1]
  {
    var t := Sort(s);
    assert s[i] in multiset(s);
    assert s[i] in multiset(t);
    assert s[i] in t;
    var k :| 0 <= k < |t| && t[k] == s[i];
    if 0 < k { assert t[0] <= t[k]; }
    if k < |t| - 1 { assert t[k] <= t[|t| - 1]; }
  }

  /** A value occurs at most once in a sequence whose elements are pairwise different. */
  lemma {:induction false} DistinctMultiplicity(s: seq<real>, v: real)
    requires AllDistinct(s)
    ensures multiset(s)[v] <= 1
  {
    if s != [] {
      var u := s[..|s| - 1];
      assert s == u + [s[|s| - 1]];
      assert AllDistinct(u);
      DistinctMultiplicity(u, v);
      if s[|s| - 1] == v {
        assert v !in u;
        assert multiset(u)[v] == 0;
      }
    }
  }

  /** A value at two different positions occurs at least twice. */
  lemma RepeatedMultiplicity(s: seq<real>, a: int, b: int)
    requires 0 <= a < b < |s| && s[a] == s[b]
    ensures multiset(s)[s[a]] >= 2
  {
    var v := s[a];
    assert s == s[..b] + [s[b]] + s[b + 1..];
    assert s[..b][a] == v;
    assert v in multiset(s[..b]);
  }

  /** Sorting keeps the elements pairwise different, so the sorted values rise strictly. */
  lemma SortStrict(s: seq<real>)
    requires AllDistinct(s)
    ensures forall i, j :: 0 <= i < j < |s| ==> Sort(s)[i] < Sort(s)[j]
  {
    var t := Sort(s);
    forall i, j | 0 <= i < j < |t| ensures t[i] < t[j] {
      if t[i] == t[j] {
        RepeatedMultiplicity(t, i, j);
        DistinctMultiplicity(s, t[i]);
        assert false;
      }
    }
  }

  // ---------------------------------------------------------------------
  // Quantiles by linear interpolation
  // ---------------------------------------------------------------------

  /**
   * The value at virtual position num/5 of the sorted sequence `s`
   * (numpy's "linear" method): s[j] + (rem/5) * (s[j+1] - s[j]) where
   * num = 5 * j + rem.
   */
  function Interpolate(s: seq<real>, num: nat): real
    requires |s| > 0 && num <= 5 * (|s| - 1)
  {
    var j := num / 5;
    var rem := num % 5;
    if rem == 0 then s[j] else s[j] + (rem as real / 5.0) * (s[j + 1] - s[j])
  }

  /** The q = k/5 quantile of sorted `s`; its virtual position is (n-1)*k/5. */
  function QuantileAt(s: seq<real>, k: nat): real
    requires |s| > 0 && k <= 5
  {
    PositionBound(|s|, k);
    Interpolate(s, (|s| - 1) * k)
  }

  lemma PositionBound(n: nat, k: nat)
    requires n > 0 && k <= 5
    ensures 0 <= (n - 1) * k <= 5 * (n - 1)
    ensures k < 5 ==> (n - 1) * (k + 1) == (n - 1) * k + (n - 1)
  {
  }

  /** The six bin edges of a five-bin cut of `xs`. */
  function Edges(xs: seq<real>): (e: seq<real>)
    requires |xs| > 0
    ensures |e| == 6
  {
    var s := Sort(xs);
    seq(6, k requires 0 <= k < 6 => QuantileAt(s, k))
  }

  /** Edge k is the k/5 quantile of the sorted population. */
  lemma EdgeAt(xs: seq<real>, k: nat)
    requires |xs| > 0 && k <= 5
    ensures Edges(xs)[k] == QuantileAt(Sort(xs), k)
  {
  }

  /** An interpolated value lies between the two order statistics it is drawn from. */
  lemma InterpolateBetween(s: seq<real>, num: nat)
    requires Sorted(s) && |s| > 0 && num <= 5 * (|s| - 1)
    ensures s[num / 5] <= Interpolate(s, num)
    ensures num % 5 != 0 ==> Interpolate(s, num) <= s[num / 5 + 1]
    ensures num % 5 != 0 && s[num / 5] < s[num / 5 + 1] ==>
              s[num / 5] < Interpolate(s, num) < s[num / 5 + 1]
    ensures Interpolate(s, num) <= s[|s| - 1]
  {
    var j, rem := num / 5, num % 5;
    if rem != 0 {
      assert j + 1 <= |s| - 1;
      if rem == 1 {} else if rem == 2 {} else if rem == 3 {} else { assert rem == 4; }
    }
  }

  /** For one order statistic, a larger remainder gives a larger (or equal) value. */
  lemma InterpolateSameCell(s: seq<real>, num: nat, num': nat)
    requires Sorted(s) && |s| > 0 && num <= num' <= 5 * (|s| - 1) && num / 5 == num' / 5
    ensures Interpolate(s, num) <= Interpolate(s, num')
    ensures num < num' && s[num / 5] < s[num / 5 + 1] ==> Interpolate(s, num) < Interpolate(s, num')
  {
    var j := num / 5;
    var rem, rem' := num % 5, num' % 5;
    assert rem <= rem';
    if rem' != 0 {
      var d := s[j + 1] - s[j];
      assert d >= 0.0;
      if rem == 0 {
        InterpolateBetween(s, num');
      } else {
        assert Interpolate(s, num') - Interpolate(s, num)
            == (rem' - rem) as real * d / 5.0;
        assert (rem' - rem) as real * d >= 0.0 by {
          if rem' - rem == 0 {} else if rem' - rem == 1 {} else if rem' - rem == 2 {} else {}
        }
        if num < num' && d > 0.0 {
          assert (rem' - rem) as real * d > 0.0 by {
            if rem' - rem == 1 {} else if rem' - rem == 2 {} else {}
          }
        }
      }
    }
  }

  /** A later virtual position never gives a smaller value. */
  lemma InterpolateMonotone(s: seq<real>, num: nat, num': nat)
    requires Sorted(s) && |s| > 0 && num <= num' <= 5 * (|s| - 1)
    ensures Interpolate(s, num) <= Interpolate(s, num')
  {
    InterpolateBetween(s, num);
    InterpolateBetween(s, num');
    if num / 5 == num' / 5 {
      InterpolateSameCell(s, num, num');
    } else {
      assert num / 5 + 1 <= num' / 5;
    }
  }

  /** Over strictly rising values, a strictly later position gives a strictly larger value. */
  lemma InterpolateStrict(s: seq<real>, num: nat, num': nat)
    requires Sorted(s) && |s| > 0 && num < num' <= 5 * (|s| - 1)
    requires forall i, j :: 0 <= i < j < |s| ==> s[i] < s[j]
    ensures Interpolate(s, num) < Interpolate(s, num')
  {
    InterpolateBetween(s, num);
    InterpolateBetween(s, num');
    var j, j' := num / 5, num' / 5;
    if j == j' {
      assert num' % 5 != 0;
      InterpolateSameCell(s, num, num');
    } else {
      assert j + 1 <= j';
      assert s[j] < s[j + 1];
      assert s[j + 1] <= s[j'];
    }
  }

  /** Successive quantiles never decrease. */
  lemma QuantileStep(s: seq<real>, k: nat)
    requires Sorted(s) && |s| > 0 && k < 5
    ensures QuantileAt(s, k) <= QuantileAt(s, k + 1)
  {
    PositionBound(|s|, k);
    PositionBound(|s|, k + 1);
    InterpolateMonotone(s, (|s| - 1) * k, (|s| - 1) * (k + 1));
  }

  /** The first quantile is the minimum, the last the maximum. */
  lemma QuantileEnds(s: seq<real>)
    requires |s| > 0
    ensures QuantileAt(s, 0) == s[0] && QuantileAt(s, 5) == s[|s| - 1]
  {
    PositionBound(|s|, 0);
    PositionBound(|s|, 5);
    var top := (|s| - 1) * 5;
    assert top / 5 == |s| - 1 && top % 5 == 0;
  }

  /** The first edge is the minimum of the population, the last the maximum. */
  lemma EdgesEnds(xs: seq<real>)
    requires |xs| > 0
    ensures Edges(xs)[0] == Sort(xs)[0]
    ensures Edges(xs)[5] == Sort(xs)[|xs| - 1]
  {
    QuantileEnds(Sort(xs));
  }

  /** The edges never decrease. */
  lemma EdgesSorted(xs: seq<real>)
    requires |xs| > 0
    ensures forall i, j :: 0 <= i < j < 6 ==> Edges(xs)[i] <= Edges(xs)[j]
  {
    var s := Sort(xs);
    forall k | 0 <= k < 5 ensures Edges(xs)[k] <= Edges(xs)[k + 1] {
      EdgeAt(xs, k);
      EdgeAt(xs, k + 1);
      QuantileStep(s, k);
    }
    SixSorted(Edges(xs));
  }

  lemma SixSorted(e: seq<real>)
    requires |e| == 6 && forall k :: 0 <= k < 5 ==> e[k] <= e[k + 1]
    ensures forall i, j :: 0 <= i < j < 6 ==> e[i] <= e[j]
  {
    assert e[0] <= e[1] <= e[2] <= e[3] <= e[4] <= e[5];
  }

  /** Every value of the population lies between the first and the last edge. */
  lemma EdgesBracket(xs: seq<real>)
    requires |xs| > 0
    ensures forall i :: 0 <= i < |xs| ==> Edges(xs)[0] <= xs[i] <= Edges(xs)[5]
  {
    EdgesEnds(xs);
    forall i | 0 <= i < |xs| ensures Edges(xs)[0] <= xs[i] <= Edges(xs)[5] {
      SortBrackets(xs, i);
    }
  }

  // ---------------------------------------------------------------------
  // Bins and the cut
  // ---------------------------------------------------------------------

  /** The number of edges strictly below x: numpy's searchsorted(x, side="left") on sorted edges. */
  function CountBelow(e: seq<real>, x: real): (c: nat)
    ensures c <= |e|
  {
    if e == [] then 0 else (if e[0] < x then 1 else 0) + CountBelow(e[1..], x)
  }

  /**
   * The 1-based bin of x: the insertion index of x into the edges, with a
   * value equal to the first edge moved into bin 1 (include_lowest).
   */
  function Bin(e: seq<real>, x: real): nat
    requires |e| == 6
  {
    if x == e[0] then 1 else CountBelow(e, x)
  }

  /** The edges strictly below x form a prefix of sorted edges. */
  lemma {:induction false} CountBelowPrefix(e: seq<real>, x: real)
    requires Sorted(e)
    ensures forall k :: 0 <= k < CountBelow(e, x) ==> e[k] < x
    ensures forall k :: CountBelow(e, x) <= k < |e| ==> x <= e[k]
  {
    if e != [] {
      CountBelowPrefix(e[1..], x);
      if !(e[0] < x) {
        assert forall k :: 0 <= k < |e[1..]| ==> x <= e[1..][k];
      }
    }
  }

  lemma {:induction false} CountBelowMonotone(e: seq<real>, x: real, y: real)
    requires x <= y
    ensures CountBelow(e, x) <= CountBelow(e, y)
  {
    if e != [] { CountBelowMonotone(e[1..], x, y); }
  }

  /**
   * For rising edges, a value of the population falls in exactly the
   * bin (e[b-1], e[b]] the cut assigns it, or it is the first edge and
   * falls in bin 1.
   */
  lemma BinBracket(e: seq<real>, x: real)
    requires |e| == 6 && forall i, j :: 0 <= i < j < 6 ==> e[i] < e[j]
    requires e[0] <= x <= e[5]
    ensures 1 <= Bin(e, x) <= 5
    ensures x == e[0] ==> Bin(e, x) == 1
    ensures x != e[0] ==> e[Bin(e, x) - 1] < x <= e[Bin(e, x)]
  {
    CountBelowPrefix(e, x);
  }

  /** Within the population's range, a larger value never lands in a lower bin. */
  lemma BinMonotone(e: seq<real>, x: real, y: real)
    requires |e| == 6 && forall i, j :: 0 <= i < j < 6 ==> e[i] < e[j]
    requires e[0] <= x <= y <= e[5]
    ensures Bin(e, x) <= Bin(e, y)
  {
    BinBracket(e, x);
    BinBracket(e, y);
    CountBelowMonotone(e, x, y);
  }

  datatype CutError = BinEdgesNotUnique

  /** The edges of a non-empty population, when they are pairwise different. */
  predicate CutSucceeds(xs: seq<real>) {
    |xs| > 0 && AllDistinct(Edges(xs))
  }

  /**
   * `pd.qcut(xs, 5, labels=labels)`: the label of each value's bin, or the
   * error raised when two edges coincide (an empty population has only
   * missing edges, which count as one and raise the same error).
   */
  function QCut(xs: seq<real>, labels: seq<int>): (r: Result<seq<int>, CutError>)
    requires |labels| == 5
    ensures r.Ok? <==> CutSucceeds(xs)
    ensures r.Ok? ==> |r.value| == |xs|
    ensures r.Ok? ==> forall i :: 0 <= i < |xs| ==> r.value[i] in labels
  {
    if !CutSucceeds(xs) then Err(BinEdgesNotUnique)
    else
      var e := Edges(xs);
      EdgesRise(xs);
      EdgesBracket(xs);
      BinsInRange(xs);
      Ok(seq(|xs|, i requires 0 <= i < |xs| => labels[Bin(e, xs[i]) - 1]))
  }

  /** Edges that are pairwise different rise strictly. */
  lemma EdgesRise(xs: seq<real>)
    requires CutSucceeds(xs)
    ensures forall i, j :: 0 <= i < j < 6 ==> Edges(xs)[i] < Edges(xs)[j]
  {
    EdgesSorted(xs);
  }

  /** Every value of a successful cut lands in one of the five bins. */
  lemma BinsInRange(xs: seq<real>)
    requires CutSucceeds(xs)
    ensures forall i :: 0 <= i < |xs| ==> 1 <= Bin(Edges(xs), xs[i]) <= 5
  {
    EdgesRise(xs);
    EdgesBracket(xs);
    forall i | 0 <= i < |xs| ensures 1 <= Bin(Edges(xs), xs[i]) <= 5 {
      BinBracket(Edges(xs), xs[i]);
    }
  }

  // ---------------------------------------------------------------------
  // What a successful cut promises
  // ---------------------------------------------------------------------

  /** Every sorted value is one of the population's values. */
  lemma SortElement(s: seq<real>, k: int)
    requires 0 <= k < |s|
    ensures exists i :: 0 <= i < |s| && s[i] == Sort(s)[k]
  {
    var t := Sort(s);
    assert t[k] in multiset(t);
    assert t[k] in multiset(s);
  }

  /**
   * Each value gets the label of the bin it lies in: bin b in 1..5 with
   * e[b-1] < x <= e[b], or bin 1 when x is the first edge.
   */
  lemma QCutLabel(xs: seq<real>, labels: seq<int>, i: int)
    requires |labels| == 5 && QCut(xs, labels).Ok? && 0 <= i < |xs|
    ensures 1 <= Bin(Edges(xs), xs[i]) <= 5
    ensures QCut(xs, labels).value[i] == labels[Bin(Edges(xs), xs[i]) - 1]
    ensures xs[i] == Edges(xs)[0] ==> Bin(Edges(xs), xs[i]) == 1
    ensures xs[i] != Edges(xs)[0] ==>
              Edges(xs)[Bin(Edges(xs), xs[i]) - 1] < xs[i] <= Edges(xs)[Bin(Edges(xs), xs[i])]
  {
    EdgesRise(xs);
    EdgesBracket(xs);
    BinBracket(Edges(xs), xs[i]);
  }

  /** A value no larger than another never gets a higher bin. */
  lemma QCutMonotone(xs: seq<real>, labels: seq<int>, i: int, j: int)
    requires |labels| == 5 && QCut(xs, labels).Ok?
    requires 0 <= i < |xs| && 0 <= j < |xs| && xs[i] <= xs[j]
    ensures Bin(Edges(xs), xs[i]) <= Bin(Edges(xs), xs[j])
  {
    EdgesRise(xs);
    EdgesBracket(xs);
    BinMonotone(Edges(xs), xs[i], xs[j]);
  }

  /** The smallest value of the population is in bin 1 and the largest in bin 5. */
  lemma QCutExtremes(xs: seq<real>, labels: seq<int>, i: int)
    requires |labels| == 5 && QCut(xs, labels).Ok? && 0 <= i < |xs|
    ensures (forall k :: 0 <= k < |xs| ==> xs[i] <= xs[k]) ==> Bin(Edges(xs), xs[i]) == 1
    ensures (forall k :: 0 <= k < |xs| ==> xs[k] <= xs[i]) ==> Bin(Edges(xs), xs[i]) == 5
  {
    if forall k :: 0 <= k < |xs| ==> xs[i] <= xs[k] {
      MinimumIsFirstEdge(xs, i);
    }
    if forall k :: 0 <= k < |xs| ==> xs[k] <= xs[i] {
      MaximumIsLastEdge(xs, i);
      var e := Edges(xs);
      EdgesRise(xs);
      EdgesBracket(xs);
      BinBracket(e, xs[i]);
    }
  }

  /** A smallest value is the first edge. */
  lemma MinimumIsFirstEdge(xs: seq<real>, i: int)
    requires 0 <= i < |xs| && forall k :: 0 <= k < |xs| ==> xs[i] <= xs[k]
    ensures xs[i] == Edges(xs)[0]
  {
    EdgesEnds(xs);
    SortElement(xs, 0);
    SortBrackets(xs, i);
  }

  /** A largest value is the last edge. */
  lemma MaximumIsLastEdge(xs: seq<real>, i: int)
    requires 0 <= i < |xs| && forall k :: 0 <= k < |xs| ==> xs[k] <= xs[i]
    ensures xs[i] == Edges(xs)[5]
  {
    EdgesEnds(xs);
    SortElement(xs, |xs| - 1);
    SortBrackets(xs, i);
  }

  /**
   * With at least two values, all different, the edges are all different,
   * so the cut succeeds: a small population alone does not make it fail.
   */
  lemma DistinctValuesCut(xs: seq<real>)
    requires |xs| >= 2 && AllDistinct(xs)
    ensures CutSucceeds(xs)
  {
    EdgesRiseStrictly(xs);
    StepsRising(Edges(xs));
  }

  /** Successive edges of a population of distinct values rise strictly. */
  lemma EdgesRiseStrictly(xs: seq<real>)
    requires |xs| >= 2 && AllDistinct(xs)
    ensures forall k :: 0 <= k < 5 ==> Edges(xs)[k] < Edges(xs)[k + 1]
  {
    SortStrict(xs);
    var s := Sort(xs);
    forall k | 0 <= k < 5 ensures Edges(xs)[k] < Edges(xs)[k + 1] {
      EdgeAt(xs, k);
      EdgeAt(xs, k + 1);
      QuantileStrictStep(s, k);
    }
  }

  lemma StepsRising(e: seq<real>)
    requires |e| == 6 && forall k :: 0 <= k < 5 ==> e[k] < e[k + 1]
    ensures AllDistinct(e)
  {
    assert e[0] < e[1] < e[2] < e[3] < e[4] < e[5];
  }

  lemma QuantileStrictStep(s: seq<real>, k: nat)
    requires |s| >= 2 && k < 5
    requires forall i, j :: 0 <= i < j < |s| ==> s[i] < s[j]
    ensures QuantileAt(s, k) < QuantileAt(s, k + 1)
  {
    assert Sorted(s);
    PositionBound(|s|, k);
    PositionBound(|s|, k + 1);
    InterpolateStrict(s, (|s| - 1) * k, (|s| - 1) * (k + 1));
  }

  /** A population whose values are all equal (one customer, say) cannot be cut. */
  lemma ConstantValuesFail(xs: seq<real>)
    requires forall i, j :: 0 <= i < |xs| && 0 <= j < |xs| ==> xs[i] == xs[j]
    ensures !CutSucceeds(xs)
  {
    if |xs| > 0 {
      EdgesEnds(xs);
      SortElement(xs, 0);
      SortElement(xs, |xs| - 1);
      assert Edges(xs)[0] == Edges(xs)[5];
    }
  }
}
