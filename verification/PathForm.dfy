/** Which strings are already canonical: the exact fixed points of pathCanonicalize. */
module PathForm {
  import opened Folds
  import opened PathSpec

  /** No backslash and no two slashes in a row. */
  predicate Clean(s: string) {
    && (forall i :: 0 <= i < |s| ==> s[i] != '\\')
    && (forall i :: 0 <= i < |s| - 1 ==> !(s[i] == '/' && s[i + 1] == '/'))
  }

  predicate CanonicalPath(s: string) {
    s == "" || s == "." || s == "./" || (Clean(s) && Canonical(IsAbsolute(s), Tokens(s)))
  }

  // ----- a clean string is its components, shown ------------------------------------------------

  lemma {:induction false} DirCons(abs: bool, x: string, rest: seq<string>)
    ensures Dir(abs, [x] + rest) == Dir(abs, []) + x + "/" + Dir(false, rest)
    decreases |rest|
  {
    var all := [x] + rest;
    if rest == [] {
      assert all == [x] && all[..0] == [];
      assert Dir(abs, []) + x + "/" + "" == Dir(abs, []) + x + "/";
    } else {
      var n := |rest| - 1;
      assert all[..n + 1] == [x] + rest[..n] && all[n + 1] == rest[n];
      DirCons(abs, x, rest[..n]);
      assert Dir(abs, []) + x + "/" + (Dir(false, rest[..n]) + rest[n] + "/")
          == (Dir(abs, []) + x + "/" + Dir(false, rest[..n])) + rest[n] + "/";
    }
  }

  lemma ShowCons(abs: bool, x: string, rest: seq<string>, slash: bool)
    requires rest != []
    ensures Show(abs, [x] + rest, slash) == Dir(abs, []) + x + "/" + Show(false, rest, slash)
  {
    var n := |rest| - 1;
    var all := [x] + rest;
    var tail := if slash then "/" else "";
    assert all[..n + 1] == [x] + rest[..n] && all[n + 1] == rest[n];
    DirCons(abs, x, rest[..n]);
    assert Dir(abs, []) + x + "/" + (Dir(false, rest[..n]) + rest[n] + tail)
        == (Dir(abs, []) + x + "/" + Dir(false, rest[..n])) + rest[n] + tail;
  }

  lemma ShowOne(abs: bool, x: string, slash: bool)
    ensures Show(abs, [x], slash) == Dir(abs, []) + x + (if slash then "/" else "")
  {
    assert [x][..0] == [];
  }

  lemma WholeName(s: string)
    requires s != [] && Run(s) == |s|
    ensures Tokens(s) == [s] && !EndsInSep(s)
  {
    assert s[..|s|] == s && s[|s|..] == [];
  }

  lemma CutAt(s: string, n: nat)
    requires n < |s|
    ensures s == s[..n] + [s[n]] + s[n + 1..]
    ensures s == s[..n] + ([s[n]] + s[n + 1..])
    ensures s[n..] == [s[n]] + s[n + 1..]
  {
  }

  lemma CleanSuffix(s: string, m: nat)
    requires Clean(s) && m <= |s|
    ensures Clean(s[m..])
  {
    var t := s[m..];
    forall i | 0 <= i < |t| - 1
      ensures !(t[i] == '/' && t[i + 1] == '/')
    {
      assert t[i] == s[m + i] && t[i + 1] == s[m + i + 1];
    }
  }

  lemma SuffixEnds(s: string, m: nat)
    requires m < |s|
    ensures s[m..] != [] && s[m..][0] == s[m] && EndsInSep(s[m..]) == EndsInSep(s)
  {
  }

  lemma PeelTokens(s: string, n: nat)
    requires s != [] && !IsSep(s[0]) && n == Run(s) < |s|
    ensures Tokens(s) == [s[..n]] + Tokens(s[n + 1..])
  {
    CutAt(s, n);
    TokensOfSep(s[n], s[n + 1..]);
  }

  lemma CutAtSlash(s: string, n: nat)
    requires n < |s| && s[n] == '/'
    ensures s == s[..n] + "/" + s[n + 1..]
  {
  }

  lemma ShowRelativeOne(x: string)
    ensures Show(false, [x], false) == x && Show(false, [x], true) == x + "/"
  {
    ShowOne(false, x, false);
    ShowOne(false, x, true);
    hide Show;
    assert "" + x == x && x + "" == x;
  }

  lemma ShowRelativeCons(x: string, rest: seq<string>, slash: bool)
    requires rest != []
    ensures Show(false, [x] + rest, slash) == x + "/" + Show(false, rest, slash)
  {
    ShowCons(false, x, rest, slash);
    hide Show;
    assert "" + x == x;
  }

  /** Relative case: the string starts with a name. */
  lemma {:induction false} CleanRelative(s: string)
    requires Clean(s) && s != [] && !IsSep(s[0])
    ensures Tokens(s) != [] && s == Show(false, Tokens(s), EndsInSep(s))
    decreases |s|
  {
    var n := Run(s);
    if n == |s| {
      WholeName(s);
      ShowRelativeOne(s);
    } else {
      var x, more := s[..n], s[n + 1..];
      assert s[n] == '/';
      PeelTokens(s, n);
      CleanSuffix(s, n + 1);
      CutAtSlash(s, n);
      assert Tokens([]) == [];
      if more == [] {
        assert EndsInSep(s);
      }
      hide Tokens, Show, Clean, Run, EndsInSep, IsSep;
      if more == [] {
        ShowRelativeOne(x);
        assert [x] + [] == [x];
        assert x + "/" + [] == x + "/";
      } else {
        SuffixEnds(s, n + 1);
        NoDoubleSlash(s, n);
        CleanRelative(more);
        ShowRelativeCons(x, Tokens(more), EndsInSep(s));
      }
    }
  }

  lemma NoDoubleSlash(s: string, n: nat)
    requires Clean(s) && n + 1 < |s| && s[n] == '/'
    ensures !IsSep(s[n + 1])
  {
  }

  /** A clean path is determined by its components, its root and its last character. */
  lemma CleanIsShown(s: string)
    requires Clean(s) && s != []
    ensures s == Show(IsAbsolute(s), Tokens(s), EndsInSep(s))
  {
    if IsSep(s[0]) {
      var more := s[1..];
      assert s[0] == '/';
      CutAt(s, 0);
      CleanSuffix(s, 1);
      TokensOfSep('/', more);
      assert Tokens([]) == [];
      hide Tokens, Clean;
      if more != [] {
        SuffixEnds(s, 1);
        NoDoubleSlash(s, 0);
        CleanRelative(more);
        ShowRooted(Tokens(more), EndsInSep(s));
      }
    } else {
      CleanRelative(s);
    }
  }

  lemma {:induction false} DirRooted(comps: seq<string>)
    ensures Dir(true, comps) == "/" + Dir(false, comps)
    decreases |comps|
  {
    if comps != [] {
      var n := |comps| - 1;
      DirRooted(comps[..n]);
      assert "/" + Dir(false, comps[..n]) + comps[n] + "/" == "/" + (Dir(false, comps[..n]) + comps[n] + "/");
    } else {
      assert "/" + "" == "/";
    }
  }

  lemma ShowRooted(comps: seq<string>, slash: bool)
    requires comps != []
    ensures Show(true, comps, slash) == ['/'] + Show(false, comps, slash)
  {
    var n := |comps| - 1;
    var tail := if slash then "/" else "";
    DirRooted(comps[..n]);
    assert "/" + Dir(false, comps[..n]) + comps[n] + tail == "/" + (Dir(false, comps[..n]) + comps[n] + tail);
  }

  // ----- a shown path is clean --------------------------------------------------------------------

  /** Clean, and ready for a name to be appended. */
  predicate CleanDir(d: string) {
    Clean(d) && (d == [] || d[|d| - 1] == '/')
  }

  lemma CleanAppend(d: string, x: string, tail: string)
    requires CleanDir(d) && IsName(x) && (tail == "" || tail == "/")
    ensures Clean(d + x + tail)
  {
    var t := d + x + tail;
    forall i | 0 <= i < |t|
      ensures t[i] != '\\'
      ensures i < |t| - 1 ==> !(t[i] == '/' && t[i + 1] == '/')
    {
      if |d| <= i < |d| + |x| {
        assert t[i] == x[i - |d|];
      }
      if |d| <= i + 1 < |d| + |x| {
        assert t[i + 1] == x[i + 1 - |d|];
      }
    }
  }

  lemma {:induction false} DirClean(abs: bool, comps: seq<string>)
    requires Names(comps)
    ensures CleanDir(Dir(abs, comps))
    decreases |comps|
  {
    if comps != [] {
      var n := |comps| - 1;
      DirClean(abs, comps[..n]);
      CleanAppend(Dir(abs, comps[..n]), comps[n], "/");
    }
  }

  lemma ShowClean(abs: bool, comps: seq<string>, slash: bool)
    requires Names(comps) && comps != []
    ensures Clean(Show(abs, comps, slash))
  {
    var n := |comps| - 1;
    DirClean(abs, comps[..n]);
    CleanAppend(Dir(abs, comps[..n]), comps[n], if slash then "/" else "");
  }

  /** Every result is canonical. */
  lemma NormalIsCanonical(s: string)
    ensures CanonicalPath(Normal(s))
  {
    var abs, comps := IsAbsolute(s), Components(s);
    ComponentsCanonical(s);
    if s != [] {
      if comps != [] {
        ShowReadsBack(abs, comps, EndsInSep(s));
        ShowClean(abs, comps, EndsInSep(s));
      } else {
        DotTokens();
      }
    }
    hide Tokens, Gather;
  }

  /** The fixed points are exactly the canonical paths. */
  lemma FixedIffCanonical(s: string)
    ensures Normal(s) == s <==> CanonicalPath(s)
  {
    NormalIsCanonical(s);
    if CanonicalPath(s) && s != "" && s != "." && s != "./" {
      var toks := Tokens(s);
      CleanIsShown(s);
      CanonicalIsFixed(IsAbsolute(s), toks, |toks|);
      assert toks[..|toks|] == toks;
    }
    NormalOfDot();
    hide Tokens, Gather, Canonical, Show;
  }
}
