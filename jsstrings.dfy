/**
 * The JavaScript string methods that the RequireJS branch of the generated
 * script applies to the first script URL: lastIndexOf and substring.
 */
module JsStrings {

  /** True when `pat` occurs in `s` starting at index `k`. */
  predicate OccursAt(s: string, pat: string, k: int) {
    0 <= k && k + |pat| <= |s| && s[k..k + |pat|] == pat
  }

  /** The scan of lastIndexOf over the start positions below `n`, from the right. */
  function LastIndexBelow(s: string, pat: string, n: int): (k: int)
    ensures -1 <= k && (k >= 0 ==> k < n)
    ensures k >= 0 ==> OccursAt(s, pat, k)
    ensures forall j :: k < j < n ==> !OccursAt(s, pat, j)
    decreases n
  {
    if n <= 0 then -1
    else if OccursAt(s, pat, n - 1) then n - 1
    else LastIndexBelow(s, pat, n - 1)
  }

  /** String.prototype.lastIndexOf(pat): the last index at which `pat` occurs in `s`, or -1. */
  function LastIndexOf(s: string, pat: string): (k: int)
    ensures -1 <= k
    ensures k >= 0 ==> OccursAt(s, pat, k)
    ensures forall j :: k < j ==> !OccursAt(s, pat, j)
  {
    LastIndexBelow(s, pat, |s| - |pat| + 1)
  }

  /** An index argument of substring, clamped to 0..len. */
  function Clamp(x: int, len: nat): nat {
    if x < 0 then 0 else if x > len then len else x
  }

  /**
   * String.prototype.substring(start, end): both arguments are clamped to
   * 0..|s| and swapped when out of order, so a negative end gives "".
   */
  function Substring(s: string, start: int, end: int): (r: string)
    ensures |r| <= |s|
    ensures 0 <= start <= end <= |s| ==> r == s[start..end]
    ensures 0 <= end <= start <= |s| ==> r == s[end..start]
    ensures end < 0 ==> r == s[..Clamp(start, |s|)]
  {
    var a := Clamp(start, |s|);
    var b := Clamp(end, |s|);
    if a <= b then s[a..b] else s[b..a]
  }
}
