/**
 * moduleName: the guess of a JavaScript module name from the URL of a
 * script, by taking path.Base and then stripping extensions until none is
 * left.
 */
module ModuleNames {
  import opened GoStrings

  /** `s` up to (not including) its first '.', or all of `s` when it has none. */
  function BeforeFirstDot(s: string): (r: string)
    ensures '.' !in r
    ensures |r| <= |s| && r == s[..|r|]
    ensures |r| < |s| ==> s[|r|] == '.'
    ensures '.' !in s ==> r == s
    decreases |s|
  {
    if s == "" || s[0] == '.' then "" else [s[0]] + BeforeFirstDot(s[1..])
  }

  /** Cutting `s` at any of its dots keeps everything before the first one. */
  lemma BeforeFirstDotOfCut(s: string, k: nat)
    requires k < |s| && s[k] == '.'
    ensures BeforeFirstDot(s[..k]) == BeforeFirstDot(s)
    decreases k
  {
  }

  /**
   * One turn of the loop of moduleName on a name that is "/" or has no slash:
   * stripping filepath.Ext changes the name exactly when it has a dot, gives a
   * prefix of it, and keeps the part before the first dot.
   */
  lemma TrimExtStep(m: string)
    requires m == "/" || '/' !in m
    ensures TrimSuffix(m, Ext(m)) == m <==> '.' !in m
    ensures var n := TrimSuffix(m, Ext(m));
      |n| <= |m| && n == m[..|n|] && BeforeFirstDot(n) == BeforeFirstDot(m) &&
      (n == "/" || '/' !in n)
  {
    var e := Ext(m);
    if e != "" {
      var k := |m| - |e|;
      assert m[k] == '.';
      BeforeFirstDotOfCut(m, k);
    }
  }

  /**
   * moduleName: path.Base of `src`, stripped of filepath.Ext again and again
   * until that changes nothing. The result is the base name up to its first
   * '.', so it has no '.' and is a prefix of the base name.
   */
  method ModuleName(src: string) returns (name: string)
    ensures name == BeforeFirstDot(Base(src))
    ensures '.' !in name
    ensures |name| <= |Base(src)| && name == Base(src)[..|name|]
  {
    var base := Base(src);
    name := base;
    while true
      invariant name == "/" || '/' !in name
      invariant |name| <= |base| && name == base[..|name|]
      invariant BeforeFirstDot(name) == BeforeFirstDot(base)
      decreases |name|
    {
      var stripped := TrimSuffix(name, Ext(name));
      TrimExtStep(name);
      if stripped == name {
        break;
      }
      PrefixOfPrefix(stripped, name, base);
      name := stripped;
    }
    TrimExtStep(name);
  }

  /** A prefix of a prefix of `s` is a prefix of `s`. */
  lemma PrefixOfPrefix(a: string, b: string, s: string)
    requires |a| <= |b| && a == b[..|a|]
    requires |b| <= |s| && b == s[..|b|]
    ensures |a| <= |s| && a == s[..|a|]
  {
  }

  /** moduleName is idempotent: a guessed module name is its own module name. */
  lemma ModuleNameIdempotent(src: string)
    ensures BeforeFirstDot(Base(BeforeFirstDot(Base(src)))) == BeforeFirstDot(Base(src))
  {
    var b := Base(src);
    var m := BeforeFirstDot(b);
    if m == "" {
      assert Base(m) == ".";
    } else if b == "/" {
      assert m == "/";
      BaseOfRoot();
    } else {
      assert '/' !in m by {
        forall c | c in m ensures c != '/' {
          var l :| 0 <= l < |m| && m[l] == c;
          assert b[l] == c;
        }
      }
      BaseOfElement(m);
    }
  }
}
