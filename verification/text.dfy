/** The two string operations the message filter relies on: `str.lower()`
    and the substring test `word in text`. */
module Text {

  /** Lower-casing of one character, restricted to the ASCII letters A-Z. */
  function LowerChar(c: char): char
  {
    if 'A' <= c <= 'Z' then (c as int + 32) as char else c
  }

  /** `s.lower()`, character by character. */
  function Lower(s: string): (r: string)
    ensures |r| == |s|
    ensures forall i :: 0 <= i < |s| ==> r[i] == LowerChar(s[i])
  {
    if s == [] then [] else [LowerChar(s[0])] + Lower(s[1..])
  }

  /** `w` occurs in `s` starting at index `k`. */
  predicate OccursAt(s: string, w: string, k: nat)
  {
    k + |w| <= |s| && s[k..k + |w|] == w
  }

  /** Python's `w in s` on strings, searching from index `i` on; the empty
      string occurs everywhere. */
  function ContainsFrom(s: string, w: string, i: nat): (r: bool)
    ensures r <==> exists k :: i <= k && OccursAt(s, w, k)
    decreases |s| - i
  {
    if i + |w| > |s| then false
    else if s[i..i + |w|] == w then assert OccursAt(s, w, i); true
    else ContainsFrom(s, w, i + 1)
  }

  /** Python's `w in s`. */
  function Contains(s: string, w: string): (r: bool)
    ensures r <==> exists k :: OccursAt(s, w, k)
  {
    ContainsFrom(s, w, 0)
  }
}
