/** Substring search on strings, as Python's `str.rfind` performs it. */
module Text {

  /** `pat` occurs in `s` starting at index `i`. */
  predicate OccursAt(s: string, pat: string, i: int) {
    0 <= i && i + |pat| <= |s| && s[i..i + |pat|] == pat
  }

  /** The highest index below `k` at which `pat` occurs in `s`, or -1 if there is none. */
  function RFindBelow(s: string, pat: string, k: nat): (r: int)
    ensures -1 <= r < k
    ensures r == -1 <==> forall i :: 0 <= i < k ==> !OccursAt(s, pat, i)
    ensures r >= 0 ==> OccursAt(s, pat, r) && forall i :: r < i < k ==> !OccursAt(s, pat, i)
  {
    if k == 0 then -1
    else if OccursAt(s, pat, k - 1) then k - 1
    else RFindBelow(s, pat, k - 1)
  }

  /** Python's `s.rfind(pat)`: the last index at which `pat` occurs in `s`, or -1. */
  function RFind(s: string, pat: string): (r: int)
    ensures -1 <= r <= |s|
    ensures r == -1 <==> forall i :: !OccursAt(s, pat, i)
    ensures r >= 0 ==> OccursAt(s, pat, r) && forall i :: r < i ==> !OccursAt(s, pat, i)
  {
    RFindBelow(s, pat, |s| + 1)
  }
}
