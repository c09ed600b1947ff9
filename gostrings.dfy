/**
 * The Go library functions that moduleName is built from, with their Unix
 * semantics: path.Base, filepath.Ext (where '/' is the only separator) and
 * strings.HasSuffix / strings.TrimSuffix.
 */
module GoStrings {

  /** strings.HasSuffix */
  predicate HasSuffix(s: string, suffix: string) {
    |suffix| <= |s| && s[|s| - |suffix|..] == suffix
  }

  /** strings.TrimSuffix: `s` without `suffix` when `s` ends with it, `s` otherwise. */
  function TrimSuffix(s: string, suffix: string): (r: string)
    ensures HasSuffix(s, suffix) ==> r + suffix == s
    ensures !HasSuffix(s, suffix) ==> r == s
  {
    if HasSuffix(s, suffix) then s[..|s| - |suffix|] else s
  }

  /** True when no '/' occurs in p[lo..hi]. */
  predicate NoSlashBetween(p: string, lo: int, hi: int)
    requires 0 <= lo <= hi <= |p|
  {
    forall l :: lo <= l < hi ==> p[l] != '/'
  }

  /**
   * The scan of filepath.Ext over the positions below `i`, from the right:
   * it stops with "" at a '/' or at the start, and with the suffix from the
   * first '.' it meets.
   */
  function ExtBelow(p: string, i: nat): (e: string)
    requires i <= |p|
    ensures HasSuffix(p, e)
    ensures e != "" ==>
      |p| - |e| < i && p[|p| - |e|] == '.' &&
      forall j :: |p| - |e| < j < i ==> p[j] != '.' && p[j] != '/'
    ensures e == "" ==>
      forall j :: 0 <= j < i && p[j] == '.' ==> !NoSlashBetween(p, j, i)
    decreases i
  {
    if i == 0 || p[i - 1] == '/' then ""
    else if p[i - 1] == '.' then p[i - 1..]
    else ExtBelow(p, i - 1)
  }

  /**
   * filepath.Ext: the suffix of `p` from the last '.' of its final element
   * (the part after the last '/'), or "" when that element has no '.'.
   */
  function Ext(p: string): (e: string)
    ensures HasSuffix(p, e)
    ensures e != "" ==>
      e[0] == '.' && forall j :: 0 < j < |e| ==> e[j] != '.' && e[j] != '/'
    ensures e == "" ==>
      forall j :: 0 <= j < |p| && p[j] == '.' ==> !NoSlashBetween(p, j, |p|)
  {
    var e := ExtBelow(p, |p|);
    assert e != "" ==> forall j :: 0 < j < |e| ==> e[j] == p[|p| - |e| + j];
    e
  }

  /** `p` without its trailing slashes. */
  function TrimTrailingSlashes(p: string): (r: string)
    ensures |r| <= |p| && r == p[..|r|]
    ensures r == "" || r[|r| - 1] != '/'
    ensures forall j :: |r| <= j < |p| ==> p[j] == '/'
    decreases |p|
  {
    if p != "" && p[|p| - 1] == '/' then TrimTrailingSlashes(p[..|p| - 1]) else p
  }

  /** The part of `p` after its last '/', or all of `p` when it has none. */
  function LastElement(p: string): (r: string)
    ensures HasSuffix(p, r)
    ensures '/' !in r
    ensures |r| < |p| ==> p[|p| - |r| - 1] == '/'
    decreases |p|
  {
    if p == "" || p[|p| - 1] == '/' then ""
    else LastElement(p[..|p| - 1]) + [p[|p| - 1]]
  }

  /** True when `p` is made of '/' only. */
  predicate AllSlashes(p: string) {
    forall j :: 0 <= j < |p| ==> p[j] == '/'
  }

  /**
   * path.Base: the last element of `p` once trailing slashes are removed;
   * "." for the empty path and "/" for a path made only of slashes.
   */
  function Base(p: string): (b: string)
    ensures b != ""
    ensures b == "/" || '/' !in b
    ensures p == "" ==> b == "."
    ensures p != "" && AllSlashes(p) ==> b == "/"
    ensures !AllSlashes(p) ==>
      var t := TrimTrailingSlashes(p);
      '/' !in b && HasSuffix(t, b) && (|b| < |t| ==> t[|t| - |b| - 1] == '/')
  {
    if p == "" then "."
    else
      var t := TrimTrailingSlashes(p);
      var element := LastElement(t);
      if element == "" then
        assert AllSlashes(p) by {
          if t != "" {
            assert t[|t| - 1] == p[|t| - 1];
          }
        }
        "/"
      else element
  }

  /** The last element of a path without slashes is the whole path. */
  lemma LastElementOfElement(m: string)
    requires '/' !in m
    ensures LastElement(m) == m
    decreases |m|
  {
  }

  /** path.Base leaves a non-empty name without slashes as it is. */
  lemma BaseOfElement(m: string)
    requires m != "" && '/' !in m
    ensures Base(m) == m
  {
    assert m[|m| - 1] in m;
    assert TrimTrailingSlashes(m) == m;
    LastElementOfElement(m);
  }

  /** path.Base maps "/" to itself. */
  lemma BaseOfRoot()
    ensures Base("/") == "/"
  {
    assert TrimTrailingSlashes("/") == "";
  }
}
