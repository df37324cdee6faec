/**
 * The composite `rfm_score` and the segment names it maps to. The ten
 * `seg_map` patterns are two-character regular expressions built from
 * character classes; `Series.replace(seg_map, regex=True)` applies
 * `re.sub` with each pattern in turn, in the dictionary's order.
 */
module Segments {
  import opened Wrappers

  // ---------------------------------------------------------------------
  // The composite code
  // ---------------------------------------------------------------------

  predicate IsDigit(c: char) {
    '0' <= c <= '9'
  }

  /** The decimal digit of 0..9, as `str(d)` writes it. */
  function Digit(d: int): (c: char)
    requires 0 <= d <= 9
    ensures IsDigit(c) && c as int - '0' as int == d
  {
    (('0' as int) + d) as char
  }

  /** `recency_score.astype(str) + frequency_score.astype(str)`. */
  function RfmScore(r: int, f: int): (s: string)
    requires 0 <= r <= 9 && 0 <= f <= 9
    ensures |s| == 2
  {
    [Digit(r), Digit(f)]
  }

  /** Reads a two-digit composite code back into its two scores. */
  function DecodeScore(s: string): Option<(int, int)> {
    if |s| == 2 && IsDigit(s[0]) && IsDigit(s[1])
    then Some((s[0] as int - '0' as int, s[1] as int - '0' as int))
    else None
  }

  /** Decoding the code of (r, f) gives (r, f) back. */
  lemma ScoreRoundTrip(r: int, f: int)
    requires 0 <= r <= 9 && 0 <= f <= 9
    ensures DecodeScore(RfmScore(r, f)) == Some((r, f))
  {
  }

  /** A string that decodes to (r, f) is the code of (r, f). */
  lemma DecodeRoundTrip(s: string, r: int, f: int)
    requires DecodeScore(s) == Some((r, f))
    ensures 0 <= r <= 9 && 0 <= f <= 9 && RfmScore(r, f) == s
  {
    assert s[0] == Digit(r) && s[1] == Digit(f);
  }

  /** Different score pairs give different codes: concatenation is not a sum. */
  lemma RfmScoreInjective(r: int, f: int, r': int, f': int)
    requires 0 <= r <= 9 && 0 <= f <= 9 && 0 <= r' <= 9 && 0 <= f' <= 9
    requires RfmScore(r, f) == RfmScore(r', f')
    ensures r == r' && f == f'
  {
    ScoreRoundTrip(r, f);
    ScoreRoundTrip(r', f');
  }

  // ---------------------------------------------------------------------
  // Patterns and re.sub
  // ---------------------------------------------------------------------

  /** A character class `[lo-hi]`; a literal character c is the class `[c-c]`. */
  datatype CharClass = CharClass(lo: char, hi: char)

  predicate InClass(c: char, cc: CharClass) {
    cc.lo <= c <= cc.hi
  }

  /** A pattern made of one class per character; it matches strings of its own length. */
  type Pattern = seq<CharClass>

  datatype Rule = Rule(pattern: Pattern, name: string)

  /** The pattern matches at the start of s. */
  predicate MatchesAt(p: Pattern, s: string) {
    |p| <= |s| && forall k :: 0 <= k < |p| ==> InClass(s[k], p[k])
  }

  /** The pattern matches the whole of s. */
  predicate FullMatch(p: Pattern, s: string) {
    |p| == |s| && MatchesAt(p, s)
  }

  /**
   * `re.sub(p, repl, s)` for a pattern of fixed, non-zero length: scanning
   * from the left, every match is replaced and scanning resumes after it.
   * A string shorter than the pattern is left alone, and one exactly as
   * long becomes the replacement when it matches and stays as it is when
   * it does not.
   */
  function Sub(p: Pattern, repl: string, s: string): (r: string)
    requires |p| > 0
    ensures |s| < |p| ==> r == s
    ensures |s| == |p| ==> r == if MatchesAt(p, s) then repl else s
    decreases |s|
  {
    if s == [] then []
    else if MatchesAt(p, s) then
      assert |s| == |p| ==> s[|p|..] == [];
      repl + Sub(p, repl, s[|p|..])
    else
      assert s == [s[0]] + s[1..];
      [s[0]] + Sub(p, repl, s[1..])
  }

  predicate WellFormed(rules: seq<Rule>) {
    forall k :: 0 <= k < |rules| ==> |rules[k].pattern| > 0
  }

  /**
   * `Series.replace(rules, regex=True)` on one value: each rule's `re.sub`
   * in order. With digit-only patterns and digit-free names, a value
   * without digits, such as a segment name already put in, passes through
   * unchanged.
   */
  function ReplaceAll(rules: seq<Rule>, s: string): (r: string)
    requires WellFormed(rules)
    ensures DigitRules(rules) && DigitFree(s) ==> r == s
  {
    if rules == [] then s
    else
      var s' := Sub(rules[0].pattern, rules[0].name, s);
      assert DigitRules(rules) && DigitFree(s) ==> s' == s && DigitRules(rules[1..]) by {
        if DigitRules(rules) && DigitFree(s) {
          SubDigitFree(rules[0].pattern, rules[0].name, s);
        }
      }
      ReplaceAll(rules[1..], s')
  }

  /** The name of the first rule whose pattern matches the whole of s. */
  function FirstMatch(rules: seq<Rule>, s: string): Option<string> {
    if rules == [] then None
    else if FullMatch(rules[0].pattern, s) then Some(rules[0].name)
    else FirstMatch(rules[1..], s)
  }

  predicate DigitFree(s: string) {
    forall c :: c in s ==> !IsDigit(c)
  }

  /** Every class of the pattern holds digits only. */
  predicate DigitPattern(p: Pattern) {
    forall k :: 0 <= k < |p| ==> '0' <= p[k].lo && p[k].hi <= '9'
  }

  /** A digit pattern finds nothing to replace in a text without digits. */
  lemma {:induction false} SubDigitFree(p: Pattern, repl: string, s: string)
    requires |p| > 0 && DigitPattern(p) && DigitFree(s)
    ensures Sub(p, repl, s) == s
    decreases |s|
  {
    if s != [] {
      assert s[0] in s;
      assert !InClass(s[0], p[0]);
      assert !MatchesAt(p, s);
      assert forall c :: c in s[1..] ==> c in s;
      SubDigitFree(p, repl, s[1..]);
      assert s == [s[0]] + s[1..];
    }
  }

  predicate DigitRules(rules: seq<Rule>) {
    forall k :: 0 <= k < |rules| ==> |rules[k].pattern| > 0 && DigitPattern(rules[k].pattern) && DigitFree(rules[k].name)
  }

  /**
   * When every pattern is as long as the code, holds digits only, and no
   * name holds a digit, the ordered replacement is a first-match-wins
   * lookup: a replaced value is never matched again.
   */
  lemma {:induction false} ReplaceAllIsFirstMatch(rules: seq<Rule>, s: string)
    requires DigitRules(rules)
    requires forall k :: 0 <= k < |rules| ==> |rules[k].pattern| == |s|
    ensures ReplaceAll(rules, s) == match FirstMatch(rules, s) case Some(n) => n case None => s
  {
    if rules != [] {
      var p, n := rules[0].pattern, rules[0].name;
      assert DigitRules(rules[1..]) && DigitFree(n);
      if !FullMatch(p, s) {
        ReplaceAllIsFirstMatch(rules[1..], s);
      }
    }
  }

  // ---------------------------------------------------------------------
  // The segment table
  // ---------------------------------------------------------------------

  function Range(lo: char, hi: char): CharClass { CharClass(lo, hi) }
  function Lit(c: char): CharClass { CharClass(c, c) }

  /** `seg_map`, in its insertion order. */
  const SegMap: seq<Rule> := [
    Rule([Range('1', '2'), Range('1', '2')], "hibernating"),
    Rule([Range('1', '2'), Range('3', '4')], "at_Risk"),
    Rule([Range('1', '2'), Lit('5')], "cant_loose"),
    Rule([Lit('3'), Range('1', '2')], "about_to_sleep"),
    Rule([Lit('3'), Lit('3')], "need_attention"),
    Rule([Range('3', '4'), Range('4', '5')], "loyal_customers"),
    Rule([Lit('4'), Lit('1')], "promising"),
    Rule([Lit('5'), Lit('1')], "new_customers"),
    Rule([Range('4', '5'), Range('2', '3')], "potential_loyalists"),
    Rule([Lit('5'), Range('4', '5')], "champions")
  ]

  const SegmentNames: seq<string> := [
    "hibernating", "at_Risk", "cant_loose", "about_to_sleep", "need_attention",
    "loyal_customers", "promising", "new_customers", "potential_loyalists", "champions"
  ]

  /**
   * The same table as explicit conditions on the two scores, the
   * (condition, name) decision table a reader of `seg_map` has in mind.
   */
  function SegmentOf(r: int, f: int): string {
    if r <= 2 then
      (if f <= 2 then "hibernating" else if f <= 4 then "at_Risk" else "cant_loose")
    else if r == 3 then
      (if f <= 2 then "about_to_sleep" else if f == 3 then "need_attention" else "loyal_customers")
    else if f == 1 then
      (if r == 4 then "promising" else "new_customers")
    else if f <= 3 then "potential_loyalists"
    else if r == 4 then "loyal_customers"
    else "champions"
  }

  /**
   * The segment of a code, as `rfm['rfm_score'].replace(seg_map, regex=True)`
   * computes it; a value without digits is left as it is.
   */
  function Segment(code: string): (s: string)
    ensures DigitFree(code) ==> s == code
  {
    SegMapDigitRules();
    ReplaceAll(SegMap, code)
  }

  /**
   * On a two-character code the segment is the name of the first rule
   * whose pattern matches it, or the code itself when none does.
   */
  lemma SegmentIsFirstMatch(code: string)
    requires |code| == 2
    ensures Segment(code) == match FirstMatch(SegMap, code) case Some(n) => n case None => code
  {
    SegMapDigitRules();
    ReplaceAllIsFirstMatch(SegMap, code);
  }

  /** Every pattern has two digit classes and no name holds a digit. */
  lemma SegMapDigitRules()
    ensures DigitRules(SegMap) && WellFormed(SegMap)
    ensures forall k :: 0 <= k < |SegMap| ==> |SegMap[k].pattern| == 2
    ensures forall k :: 0 <= k < |SegMap| ==> SegMap[k].name == SegmentNames[k]
  {
    forall k | 0 <= k < |SegMap|
      ensures |SegMap[k].pattern| == 2 && DigitPattern(SegMap[k].pattern) && DigitFree(SegMap[k].name)
    {
      RuleDigits(k);
    }
  }

  lemma RuleDigits(k: int)
    requires 0 <= k < |SegMap|
    ensures |SegMap[k].pattern| == 2 && DigitPattern(SegMap[k].pattern) && DigitFree(SegMap[k].name)
  {
    NameDigitFree(k);
  }

  lemma NameDigitFree(k: int)
    requires 0 <= k < |SegmentNames|
    ensures DigitFree(SegmentNames[k])
  {
    if k < 3 { NamesDigitFreeA(k); }
    else if k < 5 { NamesDigitFreeB(k); }
    else if k < 8 { NamesDigitFreeC(k); }
    else { NamesDigitFreeD(k); }
  }

  lemma NamesDigitFreeA(k: int)
    requires 0 <= k < 3
    ensures DigitFree(SegmentNames[k])
  {
    if k == 0 { assert DigitFree("hibernating"); }
    else if k == 1 { assert DigitFree("at_Risk"); }
    else { assert DigitFree("cant_loose"); }
  }

  lemma NamesDigitFreeB(k: int)
    requires 3 <= k < 5
    ensures DigitFree(SegmentNames[k])
  {
    if k == 3 { assert DigitFree("about_to_sleep"); }
    else { assert DigitFree("need_attention"); }
  }

  lemma NamesDigitFreeC(k: int)
    requires 5 <= k < 8
    ensures DigitFree(SegmentNames[k])
  {
    if k == 5 { assert DigitFree("loyal_customers"); }
    else if k == 6 { assert DigitFree("promising"); }
    else { assert DigitFree("new_customers"); }
  }

  lemma NamesDigitFreeD(k: int)
    requires 8 <= k < 10
    ensures DigitFree(SegmentNames[k])
  {
    if k == 8 { assert DigitFree("potential_loyalists"); }
    else { assert DigitFree("champions"); }
  }

  lemma FullMatchTwo(p: Pattern, s: string)
    requires |p| == 2 && |s| == 2
    ensures FullMatch(p, s) <==> InClass(s[0], p[0]) && InClass(s[1], p[1])
  {
  }

  /**
   * Every code of two scores in 1..5 matches exactly one of the ten
   * patterns, the one whose name the decision table gives.
   */
  lemma ExactlyOneRule(r: int, f: int)
    requires 1 <= r <= 5 && 1 <= f <= 5
    ensures exists k :: 0 <= k < |SegMap| && FullMatch(SegMap[k].pattern, RfmScore(r, f))
                        && SegMap[k].name == SegmentOf(r, f)
    ensures forall k, l :: 0 <= k < l < |SegMap| && FullMatch(SegMap[k].pattern, RfmScore(r, f))
                           ==> !FullMatch(SegMap[l].pattern, RfmScore(r, f))
  {
    var s := RfmScore(r, f);
    forall k | 0 <= k < |SegMap| ensures FullMatch(SegMap[k].pattern, s) <==>
        InClass(s[0], SegMap[k].pattern[0]) && InClass(s[1], SegMap[k].pattern[1]) {
      FullMatchTwo(SegMap[k].pattern, s);
    }
    var k := RuleIndex(r, f);
    assert FullMatch(SegMap[k].pattern, s);
  }

  /** The position in `seg_map` of the rule the decision table applies. */
  function RuleIndex(r: int, f: int): (k: int)
    ensures 0 <= k < |SegMap| && SegMap[k].name == SegmentOf(r, f)
  {
    if r <= 2 then (if f <= 2 then 0 else if f <= 4 then 1 else 2)
    else if r == 3 then (if f <= 2 then 3 else if f == 3 then 4 else 5)
    else if f == 1 then (if r == 4 then 6 else 7)
    else if f <= 3 then 8
    else if r == 4 then 5
    else 9
  }

  /** The first rule that matches is the one the decision table names. */
  lemma {:induction false} FirstMatchOfUnique(rules: seq<Rule>, s: string, k: int)
    requires 0 <= k < |rules| && FullMatch(rules[k].pattern, s)
    requires forall j :: 0 <= j < k ==> !FullMatch(rules[j].pattern, s)
    ensures FirstMatch(rules, s) == Some(rules[k].name)
  {
    if k > 0 {
      FirstMatchOfUnique(rules[1..], s, k - 1);
    }
  }

  /**
   * Total and unambiguous: for scores in 1..5 the ordered replacement
   * yields the decision table's name, one of the ten segment names.
   */
  lemma SegmentTable(r: int, f: int)
    requires 1 <= r <= 5 && 1 <= f <= 5
    ensures Segment(RfmScore(r, f)) == SegmentOf(r, f)
    ensures SegmentOf(r, f) in SegmentNames
  {
    var s := RfmScore(r, f);
    SegMapDigitRules();
    ExactlyOneRule(r, f);
    var k :| 0 <= k < |SegMap| && FullMatch(SegMap[k].pattern, s) && SegMap[k].name == SegmentOf(r, f);
    FirstMatchOfUnique(SegMap, s, k);
    SegmentIsFirstMatch(s);
  }

  /** Every one of the ten names is the segment of some code. */
  lemma SegmentsOnto(name: string)
    requires name in SegmentNames
    ensures exists r, f :: 1 <= r <= 5 && 1 <= f <= 5 && SegmentOf(r, f) == name
  {
    if name == "hibernating" { assert SegmentOf(1, 1) == name; }
    else if name == "at_Risk" { assert SegmentOf(1, 3) == name; }
    else if name == "cant_loose" { assert SegmentOf(1, 5) == name; }
    else if name == "about_to_sleep" { assert SegmentOf(3, 1) == name; }
    else if name == "need_attention" { assert SegmentOf(3, 3) == name; }
    else if name == "loyal_customers" { assert SegmentOf(3, 4) == name; }
    else if name == "promising" { assert SegmentOf(4, 1) == name; }
    else if name == "new_customers" { assert SegmentOf(5, 1) == name; }
    else if name == "potential_loyalists" { assert SegmentOf(4, 2) == name; }
    else { assert SegmentOf(5, 5) == name; }
  }
}
