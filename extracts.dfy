/**
 * The two customer extracts: customers for the new women's shoe brand
 * (loyal segments, Monetary (total spend) above 250, interested in the KADIN
 * category) and win-back customers for the men's and children's discount
 * (hibernating, about to sleep or new).
 */
module Extracts {
  import opened Wrappers
  import opened Preparation
  import CaseFold
  import Segments
  import opened Scoring

  const PremiumSegments: seq<string> := ["champions", "loyal_customers"]
  const WinBackSegments: seq<string> := ["hibernating", "about_to_sleep", "new_customers"]
  /** The Monetary bound of the brand extract; the comparison is strict. */
  const MonetaryThreshold: real := 250.0
  /** "women" in Turkish: the category searched for, case-insensitively. */
  const TargetCategory: string := "KADIN"

  /** A category list mentions the target category; a missing list does not (`na=False`). */
  predicate CategoryMatches(cat: Option<string>) {
    cat.Some? && CaseFold.ContainsIgnoreCase(cat.value, TargetCategory)
  }

  /** Some row of customer `id` has a matching category list. */
  predicate WantsCategory(rows: seq<CustomerRow>, id: string) {
    exists j :: 0 <= j < |rows| && rows[j].masterId == id && CategoryMatches(rows[j].interestedInCategories12)
  }

  predicate IsPremium(s: ScoredRecord, rows: seq<CustomerRow>) {
    s.segment in PremiumSegments && s.monetary > MonetaryThreshold && WantsCategory(rows, s.masterId)
  }

  predicate IsWinBack(s: ScoredRecord) {
    s.segment in WinBackSegments
  }

  /** No two records share a `master_id`. */
  predicate DistinctIds(t: seq<ScoredRecord>) {
    forall i, j :: 0 <= i < j < |t| ==> t[i].masterId != t[j].masterId
  }

  predicate Distinct(ids: seq<string>) {
    forall i, j :: 0 <= i < j < |ids| ==> ids[i] != ids[j]
  }

  /** Some record of customer `x` is selected by `keep`. */
  predicate Selected(t: seq<ScoredRecord>, keep: ScoredRecord -> bool, x: string) {
    exists i :: 0 <= i < |t| && t[i].masterId == x && keep(t[i])
  }

  /** The ids of the records that `keep` selects, in table order. */
  function Select(t: seq<ScoredRecord>, keep: ScoredRecord -> bool): (ids: seq<string>)
    ensures |ids| <= |t|
    ensures forall x :: x in ids <==> Selected(t, keep, x)
    ensures DistinctIds(t) ==> Distinct(ids)
  {
    if t == [] then []
    else
      var rest := Select(t[1..], keep);
      assert forall x :: Selected(t, keep, x) <==> (t[0].masterId == x && keep(t[0])) || Selected(t[1..], keep, x) by {
        forall x | Selected(t, keep, x) ensures (t[0].masterId == x && keep(t[0])) || Selected(t[1..], keep, x) {
          var i :| 0 <= i < |t| && t[i].masterId == x && keep(t[i]);
          if i > 0 { assert t[1..][i - 1] == t[i]; }
        }
        forall x | Selected(t[1..], keep, x) ensures Selected(t, keep, x) {
          var i :| 0 <= i < |t[1..]| && t[1..][i].masterId == x && keep(t[1..][i]);
          assert t[i + 1] == t[1..][i];
        }
      }
      assert DistinctIds(t) ==> DistinctIds(t[1..]) && t[0].masterId !in rest by {
        if DistinctIds(t) {
          forall i | 0 <= i < |t[1..]| ensures t[1..][i].masterId != t[0].masterId {
            assert t[1..][i] == t[i + 1];
          }
          forall i, j | 0 <= i < j < |t[1..]| ensures t[1..][i].masterId != t[1..][j].masterId {
            assert t[1..][i] == t[i + 1] && t[1..][j] == t[j + 1];
          }
        }
      }
      (if keep(t[0]) then [t[0].masterId] else []) + rest
  }

  /**
   * Lines 180-187 as evidently intended: champions and loyal customers
   * whose Monetary is above 250 and whose rows mention KADIN.
   */
  function PremiumTargets(t: seq<ScoredRecord>, rows: seq<CustomerRow>): (ids: seq<string>)
    ensures forall x :: x in ids <==> exists i :: (0 <= i < |t| && t[i].masterId == x &&
      t[i].segment in PremiumSegments && t[i].monetary > MonetaryThreshold && WantsCategory(rows, x))
    ensures DistinctIds(t) ==> Distinct(ids)
  {
    Select(t, s => IsPremium(s, rows))
  }

  /** Lines 203-205: hibernating, about-to-sleep and new customers. */
  function WinBackTargets(t: seq<ScoredRecord>): (ids: seq<string>)
    ensures forall x :: x in ids <==> exists i :: 0 <= i < |t| && t[i].masterId == x && t[i].segment in WinBackSegments
    ensures DistinctIds(t) ==> Distinct(ids)
  {
    Select(t, IsWinBack)
  }

  /** The two extracts never share a customer when every customer has one record. */
  lemma ExtractsDisjoint(t: seq<ScoredRecord>, rows: seq<CustomerRow>, x: string)
    requires DistinctIds(t)
    ensures !(x in PremiumTargets(t, rows) && x in WinBackTargets(t))
  {
    if x in PremiumTargets(t, rows) {
      var i :| 0 <= i < |t| && t[i].masterId == x && t[i].segment in PremiumSegments
                && t[i].monetary > MonetaryThreshold && WantsCategory(rows, x);
      forall j | 0 <= j < |t| && t[j].masterId == x ensures t[j].segment !in WinBackSegments {
        SameIdSameRecord(t, i, j);
      }
    }
  }

  /** With distinct ids, one id names one record. */
  lemma SameIdSameRecord(t: seq<ScoredRecord>, i: int, j: int)
    requires DistinctIds(t) && 0 <= i < |t| && 0 <= j < |t| && t[i].masterId == t[j].masterId
    ensures i == j
  {
  }

  /**
   * Line 187 as written: it filters `df` rather than the already filtered
   * table, so it keeps the id of every row that mentions KADIN, whatever
   * the customer's segment or Monetary.
   */
  function PremiumTargetsAsWritten(rows: seq<CustomerRow>): (ids: seq<string>)
    ensures |ids| <= |rows|
    ensures forall x :: x in ids <==> WantsCategory(rows, x)
  {
    if rows == [] then []
    else
      var rest := PremiumTargetsAsWritten(rows[1..]);
      assert forall x :: WantsCategory(rows, x) <==>
        (rows[0].masterId == x && CategoryMatches(rows[0].interestedInCategories12)) || WantsCategory(rows[1..], x) by {
        forall x | WantsCategory(rows, x)
          ensures (rows[0].masterId == x && CategoryMatches(rows[0].interestedInCategories12)) || WantsCategory(rows[1..], x)
        {
          var j :| 0 <= j < |rows| && rows[j].masterId == x && CategoryMatches(rows[j].interestedInCategories12);
          if j > 0 { assert rows[1..][j - 1] == rows[j]; }
        }
        forall x | WantsCategory(rows[1..], x) ensures WantsCategory(rows, x) {
          var j :| 0 <= j < |rows[1..]| && rows[1..][j].masterId == x && CategoryMatches(rows[1..][j].interestedInCategories12);
          assert rows[j + 1] == rows[1..][j];
        }
      }
      (if CategoryMatches(rows[0].interestedInCategories12) then [rows[0].masterId] else []) + rest
  }

  /**
   * The extract as written keeps a customer the intended one excludes: any
   * scored customer outside the two loyal segments, or with Monetary of at
   * most 250, whose rows mention KADIN.
   */
  lemma AsWrittenIgnoresSegment(t: seq<ScoredRecord>, rows: seq<CustomerRow>, i: int)
    requires DistinctIds(t) && 0 <= i < |t|
    requires t[i].segment !in PremiumSegments || t[i].monetary <= MonetaryThreshold
    requires WantsCategory(rows, t[i].masterId)
    ensures t[i].masterId in PremiumTargetsAsWritten(rows)
    ensures t[i].masterId !in PremiumTargets(t, rows)
  {
    var x := t[i].masterId;
    forall j | 0 <= j < |t| && t[j].masterId == x
      ensures !(t[j].segment in PremiumSegments && t[j].monetary > MonetaryThreshold)
    {
      SameIdSameRecord(t, i, j);
    }
  }

  /** How the category test treats some category lists. */
  lemma KadinExamples()
    ensures CategoryMatches(Some("[KADIN]"))
    ensures CategoryMatches(Some("[AKTIFSPOR, kadin]"))
    ensures CategoryMatches(Some("kad\U{131}n"))
    ensures !CategoryMatches(None)
  {
    CaseFold.ExactOccurrence("[", "KADIN", "]");
    LowerCaseKadin();
    DotlessKadin();
  }

  lemma LowerCaseKadin()
    ensures CaseFold.ContainsIgnoreCase("[AKTIFSPOR, kadin]", "KADIN")
  {
    var text := "[AKTIFSPOR, kadin]";
    assert text[12..17] == "kadin";
    assert CaseFold.MatchesAt(text, "KADIN", 12);
  }

  lemma DotlessKadin()
    ensures CaseFold.ContainsIgnoreCase("kad\U{131}n", "KADIN")
  {
    assert CaseFold.MatchesAt("kad\U{131}n", "KADIN", 0);
  }

  /** A list without the letter A cannot mention the category. */
  lemma NoKadinWithoutA(cat: string)
    requires forall c :: c in cat ==> !CaseFold.CharMatches(c, 'A')
    ensures !CategoryMatches(Some(cat))
  {
    forall i | 0 <= i <= |cat| - 5 ensures !CaseFold.MatchesAt(cat, TargetCategory, i) {
      assert cat[i + 1] in cat && TargetCategory[1] == 'A';
      assert !CaseFold.CharMatches(cat[i + 1], TargetCategory[1]);
    }
  }

  /** The men's and children's categories are not the women's one. */
  lemma MenAndChildrenExcluded()
    ensures !CategoryMatches(Some("[ERKEK, COCUK]"))
  {
    var cat := "[ERKEK, COCUK]";
    forall c | c in cat ensures !CaseFold.CharMatches(c, 'A') {
      CaseFold.LetterMatches(c, 'A');
    }
    NoKadinWithoutA(cat);
  }
}
