/**
 * Character-level helpers: ASCII lower-casing (the model's reading of Python's
 * `str.lower()` and of the `re.I` flag) and substring search.
 */
module Text {

  /** Lower-cases an ASCII upper-case letter and leaves every other character alone. */
  function LowerChar(c: char): char
  {
    if 'A' <= c <= 'Z' then (c as int - 'A' as int + 'a' as int) as char else c
  }

  /** `s.lower()`, character by character. */
  function Lower(s: string): (r: string)
    ensures |r| == |s|
    ensures forall i :: 0 <= i < |s| ==> r[i] == LowerChar(s[i])
  {
    if s == [] then [] else [LowerChar(s[0])] + Lower(s[1..])
  }

  /** A string without upper-case ASCII letters is its own lower-case form. */
  lemma LowerKeepsLowerCase(s: string)
    requires forall i :: 0 <= i < |s| ==> !('A' <= s[i] <= 'Z')
    ensures Lower(s) == s
  {
    assert forall i :: 0 <= i < |s| ==> Lower(s)[i] == s[i];
  }

  /** `pat` occurs in `s` starting at position `i`. */
  ghost predicate OccursAt(pat: string, s: string, i: int)
  {
    0 <= i && i + |pat| <= |s| && s[i..i + |pat|] == pat
  }

  /** Python's `pat in s`: some window of `s` equals `pat`. */
  ghost predicate Occurs(pat: string, s: string)
  {
    exists i :: OccursAt(pat, s, i)
  }

  /** Executable substring test, scanning `s` from the left. */
  function Contains(s: string, pat: string): (b: bool)
    ensures b <==> Occurs(pat, s)
    decreases |s|
  {
    if |pat| > |s| then
      assert forall i :: !OccursAt(pat, s, i);
      false
    else if s[..|pat|] == pat then
      assert OccursAt(pat, s, 0);
      true
    else
      var rest := Contains(s[1..], pat);
      ShiftOccurrence(pat, s);
      rest
  }

  /** When `pat` does not start `s`, it occurs in `s` exactly when it occurs in `s[1..]`. */
  lemma ShiftOccurrence(pat: string, s: string)
    requires |pat| <= |s| && s[..|pat|] != pat
    ensures Occurs(pat, s) <==> Occurs(pat, s[1..])
  {
    if Occurs(pat, s) {
      var i :| OccursAt(pat, s, i);
      assert i != 0;
      assert s[1..][i - 1..i - 1 + |pat|] == s[i..i + |pat|];
      assert OccursAt(pat, s[1..], i - 1);
    }
    if Occurs(pat, s[1..]) {
      var i :| OccursAt(pat, s[1..], i);
      assert s[1..][i..i + |pat|] == s[i + 1..i + 1 + |pat|];
      assert OccursAt(pat, s, i + 1);
    }
  }

  /** A case-insensitive search for a literal pattern: the reading of `re.search(pat, s, re.I)`. */
  function ContainsIgnoringCase(s: string, pat: string): bool
  {
    Contains(Lower(s), Lower(pat))
  }

  /** Characters of `s` from `i` on equal those of `pat` up to case. */
  ghost predicate MatchesFoldedAt(pat: string, s: string, i: int)
  {
    0 <= i && i + |pat| <= |s| &&
    forall j :: 0 <= j < |pat| ==> LowerChar(s[i + j]) == LowerChar(pat[j])
  }

  /**
   * The case-insensitive search succeeds exactly when some window of `s` agrees
   * with `pat` character by character after folding both sides, which is how a
   * case-insensitive regular expression made of literal characters matches.
   */
  lemma ContainsIgnoringCaseMeaning(s: string, pat: string)
    ensures ContainsIgnoringCase(s, pat) <==> exists i :: MatchesFoldedAt(pat, s, i)
  {
    var ls, lp := Lower(s), Lower(pat);
    if ContainsIgnoringCase(s, pat) {
      var i :| OccursAt(lp, ls, i);
      forall j | 0 <= j < |pat|
        ensures LowerChar(s[i + j]) == LowerChar(pat[j])
      {
        assert ls[i..i + |lp|][j] == lp[j];
      }
      assert MatchesFoldedAt(pat, s, i);
    }
    if i :| MatchesFoldedAt(pat, s, i) {
      assert ls[i..i + |lp|] == lp;
      assert OccursAt(lp, ls, i);
    }
  }
}
