/**
 * Case-insensitive substring search as pandas' `str.contains(pat,
 * case=False)` performs it: Python's `re.search` with IGNORECASE on a `str`
 * pattern. A pattern character matches a text character when their simple
 * lower-case forms agree, or when the pair is one of the extra equivalences
 * `re` adds (dotless i with i, long s with s). The patterns searched for
 * are ASCII; `Lower` is the simple lower-case mapping on every character
 * whose lower case is an ASCII letter, which is all such a pattern needs.
 */
module CaseFold {
  /** All characters are ASCII. */
  predicate IsAscii(s: string) {
    forall c :: c in s ==> c < 128 as char
  }

  predicate IsAsciiUpper(c: char) {
    'A' <= c <= 'Z'
  }

  predicate IsAsciiLower(c: char) {
    'a' <= c <= 'z'
  }

  /**
   * Simple lower case: 'A'..'Z' to 'a'..'z', capital dotted I (U+0130) to
   * 'i', the Kelvin sign (U+212A) to 'k'; any other character whose lower
   * case is not an ASCII letter is left as it is.
   */
  function Lower(c: char): (l: char)
    ensures IsAsciiLower(l) <==> IsAsciiLower(c) || IsAsciiUpper(c) || c == '\U{130}' || c == '\U{212A}'
    ensures IsAsciiUpper(c) ==> l as int == c as int + 32
    ensures !IsAsciiUpper(c) && c != '\U{130}' && c != '\U{212A}' ==> l == c
  {
    if IsAsciiUpper(c) then (c as int + 32) as char
    else if c == '\U{130}' then 'i'
    else if c == '\U{212A}' then 'k'
    else c
  }

  /** Text character `c` matches pattern character `p` under IGNORECASE. */
  predicate CharMatches(c: char, p: char) {
    || Lower(c) == Lower(p)
    || (Lower(p) == 'i' && c == '\U{131}')
    || (Lower(p) == 's' && c == '\U{17F}')
  }

  /**
   * For an ASCII letter, the characters it matches are its two cases and
   * the four non-ASCII letters Python's documentation lists: U+0130 and
   * U+0131 with I, U+017F with S and U+212A with K.
   */
  lemma LetterMatches(c: char, p: char)
    requires IsAsciiUpper(p)
    ensures CharMatches(c, p) <==>
      || c == p || c as int == p as int + 32
      || (p == 'I' && (c == '\U{130}' || c == '\U{131}'))
      || (p == 'S' && c == '\U{17F}')
      || (p == 'K' && c == '\U{212A}')
  {
    if IsAsciiUpper(c) {
      assert Lower(c) == Lower(p) <==> c == p;
    }
  }

  /** Any other ASCII pattern character matches only itself. */
  lemma NonLetterMatches(c: char, p: char)
    requires p < 128 as char && !IsAsciiUpper(p) && !IsAsciiLower(p)
    ensures CharMatches(c, p) <==> c == p
  {
  }

  /** The pattern matches the text at position i. */
  predicate MatchesAt(text: string, pat: string, i: int)
    requires 0 <= i <= |text| - |pat|
  {
    forall k :: 0 <= k < |pat| ==> CharMatches(text[i + k], pat[k])
  }

  /** `re.search(pat, text, re.IGNORECASE) is not None` for a pattern without metacharacters. */
  function ContainsIgnoreCase(text: string, pat: string): (b: bool)
    requires IsAscii(pat)
    ensures b <==> exists i :: 0 <= i <= |text| - |pat| && MatchesAt(text, pat, i)
    decreases |text|
  {
    if |text| < |pat| then false
    else if MatchesAt(text, pat, 0) then true
    else
      var rest := ContainsIgnoreCase(text[1..], pat);
      assert forall i :: 0 <= i <= |text| - 1 - |pat| ==> (MatchesAt(text[1..], pat, i) <==> MatchesAt(text, pat, i + 1)) by {
        forall i | 0 <= i <= |text| - 1 - |pat|
          ensures MatchesAt(text[1..], pat, i) <==> MatchesAt(text, pat, i + 1)
        {
          forall k | 0 <= k < |pat| ensures CharMatches(text[1..][i + k], pat[k]) == CharMatches(text[i + 1 + k], pat[k]) {
            assert text[1..][i + k] == text[i + 1 + k];
          }
        }
      }
      if rest then
        var i :| 0 <= i <= |text| - 1 - |pat| && MatchesAt(text[1..], pat, i);
        assert MatchesAt(text, pat, i + 1);
        true
      else
        assert forall i :: 1 <= i <= |text| - |pat| ==> !MatchesAt(text, pat, i) by {
          forall i | 1 <= i <= |text| - |pat| ensures !MatchesAt(text, pat, i) {
            assert !MatchesAt(text[1..], pat, i - 1);
          }
        }
        false
  }

  /** An exact occurrence is found whatever the case. */
  lemma ExactOccurrence(pre: string, pat: string, post: string)
    requires IsAscii(pat)
    ensures ContainsIgnoreCase(pre + pat + post, pat)
  {
    var text := pre + pat + post;
    assert forall k :: 0 <= k < |pat| ==> text[|pre| + k] == pat[k];
    assert MatchesAt(text, pat, |pre|);
  }

  /** Changing the case of the text's ASCII letters does not change the answer. */
  lemma CaseInsensitive(text: string, text': string, pat: string)
    requires IsAscii(pat) && |text'| == |text|
    requires forall k :: 0 <= k < |text| ==> Lower(text'[k]) == Lower(text[k]) && (text'[k] == text[k] || text[k] < 128 as char)
    ensures ContainsIgnoreCase(text', pat) == ContainsIgnoreCase(text, pat)
  {
    forall i | 0 <= i <= |text| - |pat| ensures MatchesAt(text', pat, i) <==> MatchesAt(text, pat, i) {
      forall k | 0 <= k < |pat| ensures CharMatches(text'[i + k], pat[k]) <==> CharMatches(text[i + k], pat[k]) {
        var c, c' := text[i + k], text'[i + k];
        if c' != c {
          assert c < 128 as char;
          assert c' != '\U{131}' && c' != '\U{17F}' by {
            assert Lower(c') == Lower(c);
          }
        }
      }
    }
    if ContainsIgnoreCase(text, pat) {
      var i :| 0 <= i <= |text| - |pat| && MatchesAt(text, pat, i);
      assert MatchesAt(text', pat, i);
    }
    if ContainsIgnoreCase(text', pat) {
      var i :| 0 <= i <= |text'| - |pat| && MatchesAt(text', pat, i);
      assert MatchesAt(text, pat, i);
    }
  }
}
