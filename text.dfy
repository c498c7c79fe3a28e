/** Substring search, as `String.prototype.includes` and `String.contains` do it. */
module Text {

  /** `t` occurs in `s` starting at position `i`. */
  predicate OccursAt(s: string, t: string, i: int)
  {
    0 <= i <= |s| - |t| && s[i..i + |t|] == t
  }

  /** `t` occurs in `s` as a contiguous run of characters. */
  predicate Contains(s: string, t: string)
  {
    exists i | 0 <= i <= |s| - |t| :: OccursAt(s, t, i)
  }

  /** A non-empty needle that occurs starts with a character of the haystack. */
  lemma ContainsHead(s: string, t: string)
    requires Contains(s, t) && t != []
    ensures t[0] in s
  {
    var i :| 0 <= i <= |s| - |t| && OccursAt(s, t, i);
    assert s[i..i + |t|][0] == s[i];
  }

  /** A needle longer than the haystack never occurs in it. */
  lemma NoLongerNeedle(s: string, t: string)
    requires |t| > |s|
    ensures !Contains(s, t)
  {
  }
}
