/**
 * Python's ordering of `str` values (lexicographic by code point, a
 * proper prefix first), which `groupby` uses to sort its keys, and the
 * sorted list of distinct keys it builds.
 */
module Ordering {

  predicate LexLess(a: string, b: string)
    decreases |a|
  {
    if |a| == 0 then |b| > 0
    else if |b| == 0 then false
    else if a[0] != b[0] then a[0] < b[0]
    else LexLess(a[1..], b[1..])
  }

  lemma {:induction false} LexLessIrreflexive(a: string)
    ensures !LexLess(a, a)
    decreases |a|
  {
    if |a| > 0 { LexLessIrreflexive(a[1..]); }
  }

  lemma {:induction false} LexLessTransitive(a: string, b: string, c: string)
    requires LexLess(a, b) && LexLess(b, c)
    ensures LexLess(a, c)
    decreases |a|
  {
    if |a| > 0 && |b| > 0 && |c| > 0 && a[0] == b[0] && b[0] == c[0] {
      LexLessTransitive(a[1..], b[1..], c[1..]);
    }
  }

  lemma {:induction false} LexLessTotal(a: string, b: string)
    requires a != b
    ensures LexLess(a, b) || LexLess(b, a)
    decreases |a|
  {
    if |a| > 0 && |b| > 0 && a[0] == b[0] {
      assert a == [a[0]] + a[1..] && b == [b[0]] + b[1..];
      LexLessTotal(a[1..], b[1..]);
    }
  }

  /** Keys in strictly rising order, hence also pairwise different. */
  ghost predicate StrictlySorted(ks: seq<string>) {
    forall i, j :: 0 <= i < j < |ks| ==> LexLess(ks[i], ks[j])
  }

  lemma StrictlySortedDistinct(ks: seq<string>, i: int, j: int)
    requires StrictlySorted(ks) && 0 <= i < |ks| && 0 <= j < |ks| && ks[i] == ks[j]
    ensures i == j
  {
    if i < j || j < i { LexLessIrreflexive(ks[i]); }
  }

  /** Adds a key to a strictly sorted key list, keeping it strictly sorted. */
  function InsertKey(k: string, ks: seq<string>): (r: seq<string>)
    requires StrictlySorted(ks)
    ensures StrictlySorted(r)
    ensures forall x :: x in r <==> x == k || x in ks
  {
    if ks == [] then [k]
    else if k == ks[0] then ks
    else if LexLess(k, ks[0]) then
      assert forall j :: 0 < j < |ks| ==> LexLess(k, ks[j]) by {
        forall j | 0 < j < |ks| ensures LexLess(k, ks[j]) {
          LexLessTransitive(k, ks[0], ks[j]);
        }
      }
      [k] + ks
    else
      LexLessTotal(k, ks[0]);
      var t := InsertKey(k, ks[1..]);
      assert ks == [ks[0]] + ks[1..];
      assert forall j :: 0 <= j < |t| ==> LexLess(ks[0], t[j]) by {
        forall j | 0 <= j < |t| ensures LexLess(ks[0], t[j]) {
          assert t[j] in t;
        }
      }
      [ks[0]] + t
  }
}
