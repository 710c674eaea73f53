/**
 * java.lang.String queries over strings as sequences of characters: the
 * classifier's startsWith and contains (its equals is Dafny's ==), and
 * endsWith, which states the shape of a chat notice.
 */
module Strings {

  /** `s.startsWith(p)`. */
  predicate StartsWith(s: string, p: string)
  {
    |p| <= |s| && s[..|p|] == p
  }

  /** `s.endsWith(p)`. */
  predicate EndsWith(s: string, p: string)
  {
    |p| <= |s| && s[|s| - |p|..] == p
  }

  /** `s.contains(p)`: `p` occurs at some offset of `s` (the empty string occurs everywhere). */
  predicate Contains(s: string, p: string)
  {
    exists i | 0 <= i <= |s| :: StartsWith(s[i..], p)
  }

  lemma StartsWithAppend(p: string, t: string)
    ensures StartsWith(p + t, p)
  {
    assert (p + t)[..|p|] == p;
  }

  lemma EndsWithAppend(t: string, p: string)
    ensures EndsWith(t + p, p)
  {
    assert (t + p)[|t + p| - |p|..] == p;
  }

}
