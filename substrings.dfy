/** Python's `pat in s` for two strings: `pat` occurs in `s` as a contiguous
    run of characters. The empty pattern occurs in every string, the empty
    string included. */
module Substrings {

  /** `pat` occurs in `s` starting at index `k`. */
  predicate OccursAt(pat: string, s: string, k: nat)
  {
    k + |pat| <= |s| && s[k..k + |pat|] == pat
  }

  /** `pat` is a contiguous substring of `s`: the meaning of `pat in s`. */
  predicate IsSubstring(pat: string, s: string)
  {
    exists k: nat :: k <= |s| && OccursAt(pat, s, k)
  }

  /** An occurrence one place further into `s` is an occurrence in `s[1..]`. */
  lemma OccursAtTail(pat: string, s: string, k: nat)
    requires |s| > 0
    ensures OccursAt(pat, s, k + 1) <==> OccursAt(pat, s[1..], k)
  {
    if k + 1 + |pat| <= |s| {
      assert s[k + 1..k + 1 + |pat|] == s[1..][k..k + |pat|];
    }
  }

  /** When `pat` does not start `s`, it occurs in `s` exactly when it occurs
      in the rest of `s`. */
  lemma IsSubstringTail(pat: string, s: string)
    requires |s| > 0 && !OccursAt(pat, s, 0)
    ensures IsSubstring(pat, s) <==> IsSubstring(pat, s[1..])
  {
    if IsSubstring(pat, s) {
      var k: nat :| k <= |s| && OccursAt(pat, s, k);
      assert k > 0;
      OccursAtTail(pat, s, k - 1);
      assert OccursAt(pat, s[1..], k - 1);
    }
    if IsSubstring(pat, s[1..]) {
      var k: nat :| k <= |s[1..]| && OccursAt(pat, s[1..], k);
      OccursAtTail(pat, s, k);
      assert OccursAt(pat, s, k + 1);
    }
  }

  /** Decides `pat in s` by trying each start position from the left. */
  function Contains(pat: string, s: string): (r: bool)
    ensures r <==> IsSubstring(pat, s)
    decreases |s|
  {
    if |pat| > |s| then
      false
    else if s[..|pat|] == pat then
      assert OccursAt(pat, s, 0);
      true
    else
      IsSubstringTail(pat, s);
      Contains(pat, s[1..])
  }

  /** Every string contains itself. */
  lemma SubstringReflexive(s: string)
    ensures IsSubstring(s, s)
  {
    assert OccursAt(s, s, 0);
  }

  /** Every string contains the empty string. */
  lemma EmptyIsSubstring(s: string)
    ensures IsSubstring("", s)
  {
    assert OccursAt("", s, 0);
  }

  /** A pattern whose first character appears at no possible start position
      of `s` does not occur in `s`. */
  lemma NotSubstringByFirstChar(pat: string, s: string)
    requires |pat| > 0
    requires forall k :: 0 <= k <= |s| - |pat| ==> s[k] != pat[0]
    ensures !IsSubstring(pat, s)
  {
    forall k: nat | k <= |s| && k + |pat| <= |s|
      ensures !OccursAt(pat, s, k)
    {
      assert s[k..k + |pat|][0] == s[k];
    }
  }
}
