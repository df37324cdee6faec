/**
 * `Series.rank(method="first")` over the Frequency column: each value's
 * rank is one more than the number of values that come before it, a
 * value coming before another when it is smaller, or equal and at an
 * earlier position.
 */
module Ranking {
  import Quantile

  /** Customer j comes before customer i in the ranking order. */
  predicate Precedes(xs: seq<int>, j: int, i: int)
    requires 0 <= j < |xs| && 0 <= i < |xs|
  {
    xs[j] < xs[i] || (xs[j] == xs[i] && j < i)
  }

  /** How many of the first m positions come before position i. */
  function CountPreceding(xs: seq<int>, i: int, m: nat): nat
    requires 0 <= i < |xs| && m <= |xs|
  {
    if m == 0 then 0
    else CountPreceding(xs, i, m - 1) + (if Precedes(xs, m - 1, i) then 1 else 0)
  }

  function Rank(xs: seq<int>, i: int): int
    requires 0 <= i < |xs|
  {
    1 + CountPreceding(xs, i, |xs|)
  }

  /** The rank column, in the table's row order. */
  function Ranks(xs: seq<int>): (r: seq<int>)
    ensures |r| == |xs|
  {
    seq(|xs|, i requires 0 <= i < |xs| => Rank(xs, i))
  }

  /** The ranks as the real-valued column that is cut. */
  function RanksAsReals(xs: seq<int>): (r: seq<real>)
    ensures |r| == |xs|
  {
    seq(|xs|, i requires 0 <= i < |xs| => Rank(xs, i) as real)
  }

  lemma {:induction false} CountPrecedingBound(xs: seq<int>, i: int, m: nat)
    requires 0 <= i < |xs| && m <= |xs|
    ensures CountPreceding(xs, i, m) + (if i < m then 1 else 0) <= m
  {
    if m > 0 { CountPrecedingBound(xs, i, m - 1); }
  }

  /** Everything before i is before j when i is before j, and i itself is too. */
  lemma {:induction false} CountPrecedingStrict(xs: seq<int>, i: int, j: int, m: nat)
    requires 0 <= i < |xs| && 0 <= j < |xs| && m <= |xs| && Precedes(xs, i, j)
    ensures CountPreceding(xs, i, m) + (if i < m then 1 else 0) <= CountPreceding(xs, j, m)
  {
    if m > 0 { CountPrecedingStrict(xs, i, j, m - 1); }
  }

  /** Ranks run from 1 to n. */
  lemma RankBounds(xs: seq<int>, i: int)
    requires 0 <= i < |xs|
    ensures 1 <= Rank(xs, i) <= |xs|
  {
    CountPrecedingBound(xs, i, |xs|);
  }

  /**
   * The ranking order is the order by value with ties broken by position:
   * for different customers, i has the smaller rank exactly when i comes
   * first. So the ranks are pairwise different.
   */
  lemma RankOrder(xs: seq<int>, i: int, j: int)
    requires 0 <= i < |xs| && 0 <= j < |xs| && i != j
    ensures Rank(xs, i) < Rank(xs, j) <==> Precedes(xs, i, j)
    ensures Rank(xs, i) != Rank(xs, j)
  {
    if Precedes(xs, i, j) {
      CountPrecedingStrict(xs, i, j, |xs|);
    } else {
      assert Precedes(xs, j, i);
      CountPrecedingStrict(xs, j, i, |xs|);
    }
  }

  /** The ranks form a permutation of 1..n: in range and pairwise different. */
  lemma RanksPermutation(xs: seq<int>)
    ensures forall i :: 0 <= i < |xs| ==> 1 <= Ranks(xs)[i] <= |xs|
    ensures forall i, j :: 0 <= i < |xs| && 0 <= j < |xs| && i != j ==> Ranks(xs)[i] != Ranks(xs)[j]
  {
    forall i | 0 <= i < |xs| ensures 1 <= Ranks(xs)[i] <= |xs| { RankBounds(xs, i); }
    forall i, j | 0 <= i < |xs| && 0 <= j < |xs| && i != j ensures Ranks(xs)[i] != Ranks(xs)[j] {
      RankOrder(xs, i, j);
    }
  }

  /** Strictly rising whole numbers from 1 to at most n, n of them, are exactly 1, 2, ..., n. */
  lemma {:induction false} RisingWholeNumbers(s: seq<real>, n: nat, k: nat)
    requires |s| == n && k < n
    requires forall a :: 0 <= a < n ==> s[a] == s[a].Floor as real && 1.0 <= s[a] <= n as real
    requires forall a, b :: 0 <= a < b < n ==> s[a] < s[b]
    ensures s[k] >= (k + 1) as real
    ensures s[k] <= (n - (n - 1 - k)) as real
  {
    if k > 0 {
      RisingWholeNumbers(s, n, k - 1);
      assert s[k - 1].Floor < s[k].Floor;
    }
    if k < n - 1 {
      RisingWholeNumbersDown(s, n, k);
    }
  }

  lemma {:induction false} RisingWholeNumbersDown(s: seq<real>, n: nat, k: nat)
    requires |s| == n && k < n
    requires forall a :: 0 <= a < n ==> s[a] == s[a].Floor as real && 1.0 <= s[a] <= n as real
    requires forall a, b :: 0 <= a < b < n ==> s[a] < s[b]
    ensures s[k] <= (k + 1) as real
    decreases n - k
  {
    if k < n - 1 {
      RisingWholeNumbersDown(s, n, k + 1);
      assert s[k].Floor < s[k + 1].Floor;
    }
  }

  /** The sorted rank column is 1, 2, ..., n. */
  lemma SortedRanks(xs: seq<int>)
    ensures forall a :: 0 <= a < |xs| ==> Quantile.Sort(RanksAsReals(xs))[a] == (a + 1) as real
  {
    var r := RanksAsReals(xs);
    var s := Quantile.Sort(r);
    var n := |xs|;
    RanksPermutation(xs);
    assert Quantile.AllDistinct(r) by {
      forall i, j | 0 <= i < j < n ensures r[i] != r[j] {
        assert Ranks(xs)[i] != Ranks(xs)[j];
      }
    }
    Quantile.SortStrict(r);
    forall a | 0 <= a < n ensures s[a] == s[a].Floor as real && 1.0 <= s[a] <= n as real {
      Quantile.SortElement(r, a);
      var i :| 0 <= i < n && r[i] == s[a];
      assert r[i] == Ranks(xs)[i] as real;
    }
    forall a | 0 <= a < n ensures s[a] == (a + 1) as real {
      RisingWholeNumbersDown(s, n, a);
      RisingWholeNumbers(s, n, a);
    }
  }

  /** Interpolating in 1, 2, ..., n at position num/5 gives 1 + num/5 exactly. */
  lemma InterpolateCounting(s: seq<real>, num: nat)
    requires |s| > 0 && num <= 5 * (|s| - 1)
    requires forall a :: 0 <= a < |s| ==> s[a] == (a + 1) as real
    ensures Quantile.Interpolate(s, num) == 1.0 + num as real / 5.0
  {
    var j, rem := num / 5, num % 5;
    assert num == 5 * j + rem;
    if rem != 0 {
      assert s[j + 1] - s[j] == 1.0;
    }
  }

  /**
   * The frequency bin edges are the exact rationals 1 + (n-1)*k/5 for
   * k = 0..5.
   */
  lemma RankEdges(xs: seq<int>, k: nat)
    requires |xs| > 0 && k <= 5
    ensures Quantile.Edges(RanksAsReals(xs))[k] == 1.0 + ((|xs| - 1) * k) as real / 5.0
  {
    var s := Quantile.Sort(RanksAsReals(xs));
    SortedRanks(xs);
    Quantile.PositionBound(|xs|, k);
    Quantile.EdgeAt(RanksAsReals(xs), k);
    InterpolateCounting(s, (|xs| - 1) * k);
  }

  /** The ranks as reals are pairwise different. */
  lemma RanksDistinct(xs: seq<int>)
    ensures Quantile.AllDistinct(RanksAsReals(xs))
  {
    var r := RanksAsReals(xs);
    forall i, j | 0 <= i < j < |xs| ensures r[i] != r[j] {
      RankOrder(xs, i, j);
    }
  }

  /** The rank column can be cut into five bins exactly when it has at least two customers. */
  lemma RankCutSucceeds(xs: seq<int>)
    ensures Quantile.CutSucceeds(RanksAsReals(xs)) <==> |xs| >= 2
  {
    if |xs| >= 2 {
      RanksDistinct(xs);
      Quantile.DistinctValuesCut(RanksAsReals(xs));
    } else {
      Quantile.ConstantValuesFail(RanksAsReals(xs));
    }
  }

  /**
   * Bin b is the bin of rank p among n customers, by integer
   * cross-multiplication: bin 1 for p = 1, and otherwise the b with
   * (n-1)(b-1) < 5(p-1) <= (n-1)b.
   */
  predicate RankBinBounds(n: int, p: int, b: int) {
    && (p == 1 ==> b == 1)
    && (p > 1 ==> (n - 1) * (b - 1) < 5 * (p - 1) <= (n - 1) * b)
  }

  /** The bin of rank p among n >= 2 customers. */
  lemma RankBin(xs: seq<int>, i: int)
    requires |xs| >= 2 && 0 <= i < |xs|
    ensures 1 <= Quantile.Bin(Quantile.Edges(RanksAsReals(xs)), Rank(xs, i) as real) <= 5
    ensures RankBinBounds(|xs|, Rank(xs, i), Quantile.Bin(Quantile.Edges(RanksAsReals(xs)), Rank(xs, i) as real))
  {
    var r, n, p := RanksAsReals(xs), |xs|, Rank(xs, i);
    var e := Quantile.Edges(r);
    RankCutSucceeds(xs);
    Quantile.EdgesRise(r);
    Quantile.EdgesBracket(r);
    assert r[i] == p as real;
    Quantile.BinBracket(e, p as real);
    var b := Quantile.Bin(e, p as real);
    RankEdges(xs, 0);
    if p != 1 {
      assert p as real != e[0];
      RankEdges(xs, b - 1);
      RankEdges(xs, b);
      Quantile.PositionBound(n, b - 1);
      var lo, hi := (n - 1) * (b - 1), (n - 1) * b;
      assert 1.0 + lo as real / 5.0 < p as real <= 1.0 + hi as real / 5.0;
      assert lo < 5 * (p - 1) <= hi;
    }
  }
}
