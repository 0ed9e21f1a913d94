/** Substring search on strings, as Rust's `str::contains` performs it. */
module Text {

  /** Executable substring test: `pat` starts at some position of `s`.
      The empty pattern is found in every string, as in Rust. */
  function Contains(s: string, pat: string): bool
    decreases |s|
  {
    if |s| < |pat| then false
    else s[..|pat|] == pat || Contains(s[1..], pat)
  }

  /** `pat` occurs in `s` starting at index `i`. */
  ghost predicate OccursAt(s: string, pat: string, i: int) {
    0 <= i <= |s| - |pat| && s[i..i + |pat|] == pat
  }

  /** Reference meaning of "`s` contains `pat`": some slice of `s` equals `pat`. */
  ghost predicate Occurs(s: string, pat: string) {
    exists i :: OccursAt(s, pat, i)
  }

  /** The scanning test finds exactly the occurrences the reference describes. */
  lemma {:induction false} ContainsOccurs(s: string, pat: string)
    ensures Contains(s, pat) <==> Occurs(s, pat)
    decreases |s|
  {
    if |s| < |pat| {
    } else if s[..|pat|] == pat {
      assert OccursAt(s, pat, 0);
    } else {
      var t := s[1..];
      ContainsOccurs(t, pat);
      if Occurs(t, pat) {
        var i :| OccursAt(t, pat, i);
        assert s[i + 1..i + 1 + |pat|] == t[i..i + |pat|];
        assert OccursAt(s, pat, i + 1);
      }
      if Occurs(s, pat) {
        var i :| OccursAt(s, pat, i);
        assert i != 0;
        assert t[i - 1..i - 1 + |pat|] == s[i..i + |pat|];
        assert OccursAt(t, pat, i - 1);
      }
    }
  }

  /** A pattern whose first character appears nowhere in `s` is not found. */
  lemma {:induction false} NotContained(s: string, pat: string)
    requires |pat| > 0 && forall i :: 0 <= i < |s| ==> s[i] != pat[0]
    ensures !Contains(s, pat)
  {
    ContainsOccurs(s, pat);
    forall i | 0 <= i <= |s| - |pat|
      ensures !OccursAt(s, pat, i)
    {
      assert s[i..i + |pat|][0] == s[i];
    }
  }
}
