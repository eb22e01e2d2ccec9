/**
 * What pathCanonicalize computes, in terms of path components: the canonical form of a path, the
 * place a path denotes, and how the two relate.
 */
module PathSpec {
  import opened Folds

  // ----- components ----------------------------------------------------------------------------

  predicate IsSep(c: char) {
    c == '/' || c == '\\'
  }

  /** Length of the leading run of characters that are not separators. */
  function Run(s: string): (n: nat)
    ensures n <= |s|
    ensures forall i :: 0 <= i < n ==> !IsSep(s[i])
    ensures n < |s| ==> IsSep(s[n])
  {
    if s == [] || IsSep(s[0]) then 0 else 1 + Run(s[1..])
  }

  /** The non-empty components of a path. */
  function Tokens(s: string): seq<string>
    decreases |s|
  {
    if s == [] then []
    else if IsSep(s[0]) then Tokens(s[1..])
    else [s[..Run(s)]] + Tokens(s[Run(s)..])
  }

  predicate IsAbsolute(s: string) {
    s != [] && IsSep(s[0])
  }

  predicate EndsInSep(s: string) {
    s != [] && IsSep(s[|s| - 1])
  }

  /** A component: not empty, no separator inside. */
  predicate IsName(x: string) {
    x != [] && forall i :: 0 <= i < |x| ==> !IsSep(x[i])
  }

  predicate Names(xs: seq<string>) {
    forall i :: 0 <= i < |xs| ==> IsName(xs[i])
  }

  predicate StartsDotDot(x: string) {
    |x| >= 2 && x[..2] == ".."
  }

  // ----- the canonical form -----------------------------------------------------------------------

  /** How one component changes the canonical components gathered so far. */
  function Push(abs: bool): (seq<string>, string) -> seq<string> {
    (comps: seq<string>, x: string) =>
      if x == "." then comps
      else if x != ".." then comps + [x]
      else if comps == [] then (if abs then [] else [".."])
      else
        var last := comps[|comps| - 1];
        if (if abs || |comps| > 1 then StartsDotDot(last) else last == "..") then comps + [".."]
        else comps[..|comps| - 1]
  }

  function Gather(abs: bool, comps: seq<string>, tokens: seq<string>): seq<string> {
    Fold(Push(abs), comps, tokens)
  }

  /** Components, each followed by a slash, after the root slash if there is one. */
  function Dir(abs: bool, comps: seq<string>): string
    decreases |comps|
  {
    if comps == [] then (if abs then "/" else "")
    else Dir(abs, comps[..|comps| - 1]) + comps[|comps| - 1] + "/"
  }

  /** The string for a list of components; slash tells whether to end in one. */
  function Show(abs: bool, comps: seq<string>, slash: bool): string {
    if comps == [] then (if abs then "/" else if slash then "./" else ".")
    else Dir(abs, comps[..|comps| - 1]) + comps[|comps| - 1] + (if slash then "/" else "")
  }

  function Components(s: string): seq<string> {
    Gather(IsAbsolute(s), [], Tokens(s))
  }

  /** The canonical form of a path. */
  function Normal(s: string): string {
    if s == [] then [] else Show(IsAbsolute(s), Components(s), EndsInSep(s))
  }

  // ----- the place a path denotes --------------------------------------------------------------------

  /** A place in a tree: below the root, or a number of levels up from here and then down. */
  datatype Place = Place(abs: bool, ups: nat, names: seq<string>)

  /** Lexical resolution of one component; ".." at the root stays at the root. */
  function Walk(p: Place, x: string): Place {
    if x == "." then p
    else if x != ".." then p.(names := p.names + [x])
    else if p.names != [] then p.(names := p.names[..|p.names| - 1])
    else if p.abs then p
    else p.(ups := p.ups + 1)
  }

  function WalkAll(abs: bool, tokens: seq<string>): Place {
    Fold(Walk, Place(abs, 0, []), tokens)
  }

  function Meaning(s: string): Place {
    WalkAll(IsAbsolute(s), Tokens(s))
  }

  // ----- which components are canonical -----------------------------------------------------------------

  /** ".." stands first in a relative path, or after a component that begins with "..". */
  predicate DotDotPlaced(abs: bool, comps: seq<string>, m: nat)
    requires m < |comps|
  {
    if m == 0 then !abs
    else if m == 1 && !abs then comps[0] == ".."
    else StartsDotDot(comps[m - 1])
  }

  predicate Canonical(abs: bool, comps: seq<string>) {
    && Names(comps)
    && forall m :: 0 <= m < |comps| ==> comps[m] != "." && (comps[m] == ".." ==> DotDotPlaced(abs, comps, m))
  }

  lemma {:induction false} TokensAreNames(s: string)
    ensures Names(Tokens(s))
    decreases |s|
  {
    if s != [] {
      if IsSep(s[0]) {
        TokensAreNames(s[1..]);
      } else {
        TokensAreNames(s[Run(s)..]);
      }
    }
  }

  lemma PushCanonical(abs: bool, comps: seq<string>, x: string)
    requires Canonical(abs, comps) && IsName(x)
    ensures Canonical(abs, Push(abs)(comps, x))
  {
  }

  lemma {:induction false} GatherCanonical(abs: bool, comps: seq<string>, tokens: seq<string>)
    requires Canonical(abs, comps) && Names(tokens)
    ensures Canonical(abs, Gather(abs, comps, tokens))
    decreases |tokens|
  {
    hide Push, Canonical;
    if tokens != [] {
      PushCanonical(abs, comps, tokens[0]);
      GatherCanonical(abs, Push(abs)(comps, tokens[0]), tokens[1..]);
    }
  }

  lemma PushExtends(abs: bool, comps: seq<string>, n: nat)
    requires Canonical(abs, comps) && n < |comps|
    ensures Push(abs)(comps[..n], comps[n]) == comps[..n + 1]
  {
    var init := comps[..n];
    assert init + [comps[n]] == comps[..n + 1];
    if comps[n] == ".." {
      assert DotDotPlaced(abs, comps, n);
      if n > 0 {
        assert init[|init| - 1] == comps[n - 1];
      } else {
        assert comps[..1] == [".."];
      }
    }
  }

  /** Canonical components are gathered unchanged. */
  lemma {:induction false} CanonicalIsFixed(abs: bool, comps: seq<string>, n: nat)
    requires Canonical(abs, comps) && n <= |comps|
    ensures Gather(abs, [], comps[..n]) == comps[..n]
    decreases n
  {
    hide Push, Canonical;
    if n > 0 {
      CanonicalIsFixed(abs, comps, n - 1);
      assert comps[..n][..n - 1] == comps[..n - 1] && comps[..n][..n] == comps[..n];
      FoldSnoc(Push(abs), [], comps[..n], n - 1);
      PushExtends(abs, comps, n - 1);
    }
  }

  // ----- canonical components denote the same place ---------------------------------------------------------

  lemma WalkSnoc(abs: bool, comps: seq<string>, x: string)
    ensures WalkAll(abs, comps + [x]) == Walk(WalkAll(abs, comps), x)
  {
    FoldAppend(Walk, Place(abs, 0, []), comps, [x]);
    FoldOne(Walk, WalkAll(abs, comps), x);
  }

  lemma {:induction false} RootHasNoUps(abs: bool, comps: seq<string>)
    ensures WalkAll(abs, comps).abs == abs
    ensures abs ==> WalkAll(abs, comps).ups == 0
    decreases |comps|
  {
    if comps != [] {
      var n := |comps| - 1;
      RootHasNoUps(abs, comps[..n]);
      WalkSnoc(abs, comps[..n], comps[n]);
      assert comps[..n] + [comps[n]] == comps;
    }
  }

  /** One component has the same effect on the canonical list as on the place. */
  lemma PushMeaning(abs: bool, comps: seq<string>, x: string)
    requires Canonical(abs, comps)
    ensures WalkAll(abs, Push(abs)(comps, x)) == Walk(WalkAll(abs, comps), x)
  {
    WalkSnoc(abs, comps, x);
    if x == ".." && comps != [] {
      var n := |comps| - 1;
      WalkSnoc(abs, comps[..n], comps[n]);
      assert comps[..n] + [comps[n]] == comps;
    }
    if comps == [] {
      assert [] + [x] == [x];
      assert WalkAll(abs, []) == Place(abs, 0, []);
    }
  }

  lemma {:induction false} GatherMeaning(abs: bool, comps: seq<string>, tokens: seq<string>)
    requires Canonical(abs, comps) && Names(tokens)
    ensures WalkAll(abs, Gather(abs, comps, tokens)) == Fold(Walk, WalkAll(abs, comps), tokens)
    decreases |tokens|
  {
    hide Push, Canonical, Walk, WalkAll;
    if tokens != [] {
      PushMeaning(abs, comps, tokens[0]);
      PushCanonical(abs, comps, tokens[0]);
      GatherMeaning(abs, Push(abs)(comps, tokens[0]), tokens[1..]);
    }
  }

  // ----- reading a shown path back ----------------------------------------------------------------------------

  lemma RunOfName(x: string, rest: string)
    requires IsName(x) && (rest == [] || IsSep(rest[0]))
    ensures Run(x + rest) == |x|
  {
    var t := x + rest;
    assert forall i :: 0 <= i < |x| ==> t[i] == x[i];
    assert |x| < |t| ==> t[|x|] == rest[0];
  }

  lemma TokensOfName(x: string, rest: string)
    requires IsName(x) && (rest == [] || IsSep(rest[0]))
    ensures Tokens(x + rest) == [x] + Tokens(rest)
  {
    RunOfName(x, rest);
    assert (x + rest)[0] == x[0];
    assert (x + rest)[..|x|] == x && (x + rest)[|x|..] == rest;
  }

  lemma TokensOfSep(c: char, rest: string)
    requires IsSep(c)
    ensures Tokens([c] + rest) == Tokens(rest)
  {
    assert ([c] + rest)[1..] == rest;
  }

  /** Tokens before a separator are found whatever follows. */
  lemma {:induction false} TokensBeforeSep(s: string, rest: string)
    requires rest == [] || IsSep(rest[0])
    ensures Tokens(s + rest) == Tokens(s) + Tokens(rest)
    decreases |s|
  {
    if s == [] {
      assert s + rest == rest;
    } else if IsSep(s[0]) {
      assert s + rest == [s[0]] + (s[1..] + rest);
      TokensOfSep(s[0], s[1..] + rest);
      TokensBeforeSep(s[1..], rest);
    } else {
      var n := Run(s);
      assert s[..n] != [];
      TokensBeforeSep(s[n..], rest);
      assert s + rest == s[..n] + (s[n..] + rest);
      TokensOfName(s[..n], s[n..] + rest);
    }
  }

  lemma {:induction false} TokensOfDir(abs: bool, comps: seq<string>)
    requires Names(comps)
    ensures Tokens(Dir(abs, comps)) == comps
    ensures Dir(abs, comps) != [] ==> IsSep(Dir(abs, comps)[|Dir(abs, comps)| - 1])
    ensures IsAbsolute(Dir(abs, comps)) == abs
    decreases |comps|
  {
    if comps == [] {
      TokensOfSep('/', []);
      assert ['/'] + [] == "/";
    } else {
      var n := |comps| - 1;
      var d, x := Dir(abs, comps[..n]), comps[n];
      TokensOfDir(abs, comps[..n]);
      TokensAppendName(d, x, "/");
      assert d + x + "/" == d + (x + "/");
      TokensOfSep('/', []);
      assert ['/'] + [] == "/";
      assert Tokens("/") == [];
      assert comps[..n] + [x] == comps;
    }
  }

  lemma SplitLast<T>(d: seq<T>, rest: seq<T>)
    requires d != []
    ensures d == d[..|d| - 1] + [d[|d| - 1]]
    ensures d + rest == d[..|d| - 1] + ([d[|d| - 1]] + rest)
  {
  }

  lemma TokensOfOneSep(c: char)
    requires IsSep(c)
    ensures Tokens([c]) == []
  {
    assert [c][1..] == [];
  }

  lemma TokensAfterSep(d: string, rest: string)
    requires d != [] && IsSep(d[|d| - 1])
    ensures Tokens(d + rest) == Tokens(d) + Tokens(rest)
  {
    hide Tokens;
    var init, c := d[..|d| - 1], d[|d| - 1];
    SplitLast(d, rest);
    TokensBeforeSep(init, [c]);
    TokensBeforeSep(init, [c] + rest);
    TokensOfSep(c, rest);
    TokensOfOneSep(c);
    assert Tokens(d) == Tokens(init);
  }

  lemma Regroup<T>(a: seq<T>, b: seq<T>, c: seq<T>)
    ensures a + (b + c) == a + b + c
  {
  }

  lemma NothingBefore<T>(a: seq<T>)
    ensures [] + a == a
  {
  }

  /** A directory prefix followed by a name. */
  lemma TokensAppendName(d: string, x: string, rest: string)
    requires IsName(x) && (rest == [] || IsSep(rest[0]))
    requires d == [] || IsSep(d[|d| - 1])
    ensures Tokens(d + (x + rest)) == Tokens(d) + [x] + Tokens(rest)
  {
    hide Tokens, IsName, IsSep;
    TokensOfName(x, rest);
    Regroup(Tokens(d), [x], Tokens(rest));
    if d == [] {
      TokensOfNothing();
      NothingBefore(x + rest);
      NothingBefore([x] + Tokens(rest));
    } else {
      TokensAfterSep(d, x + rest);
    }
  }

  /** The two ends of a shown path. */
  lemma ShownEnds(d: string, x: string, rest: string, abs: bool)
    requires IsName(x) && (rest == "" || rest == "/")
    requires IsAbsolute(d) == abs && (d == "" || IsSep(d[|d| - 1]))
    ensures var t := d + (x + rest); t != [] && IsAbsolute(t) == abs && EndsInSep(t) == (rest == "/")
  {
    var t := d + (x + rest);
    if d == "" {
      assert t[0] == x[0];
    } else {
      assert t[0] == d[0];
    }
    if rest == "" {
      assert t[|t| - 1] == x[|x| - 1];
    } else {
      assert t[|t| - 1] == '/';
    }
  }

  lemma TokensOfNothing()
    ensures Tokens("") == [] && Tokens("/") == []
  {
    TokensOfOneSep('/');
  }

  lemma AllButLast(comps: seq<string>)
    requires comps != []
    ensures comps[..|comps| - 1] + [comps[|comps| - 1]] + [] == comps
  {
  }

  /** A shown list of components reads back as itself. */
  lemma ShowReadsBack(abs: bool, comps: seq<string>, slash: bool)
    requires Names(comps) && comps != []
    ensures var t := Show(abs, comps, slash);
            t != [] && Tokens(t) == comps && IsAbsolute(t) == abs && EndsInSep(t) == slash
  {
    var n := |comps| - 1;
    var d, x, rest := Dir(abs, comps[..n]), comps[n], if slash then "/" else "";
    assert Show(abs, comps, slash) == d + x + rest;
    hide Tokens, Dir, Show, IsAbsolute, EndsInSep, IsSep, IsName;
    TokensOfDir(abs, comps[..n]);
    TokensOfNothing();
    SlashIsSep();
    TokensAppendName(d, x, rest);
    ShownEnds(d, x, rest, abs);
    Regroup(d, x, rest);
    AllButLast(comps);
  }

  lemma SlashIsSep()
    ensures IsSep('/')
  {
  }

  lemma ComponentsCanonical(s: string)
    ensures Canonical(IsAbsolute(s), Components(s))
  {
    TokensAreNames(s);
    GatherCanonical(IsAbsolute(s), [], Tokens(s));
  }

  lemma DotTokens()
    ensures Tokens(".") == ["."] && Tokens("./") == ["."] && Tokens("/") == []
  {
    TokensOfOneSep('/');
    TokensOfName(".", "/");
    TokensOfName(".", "");
    assert "." + "" == "." && "." + "/" == "./";
  }

  /** The canonical form denotes the same place. */
  lemma MeaningPreserved(s: string)
    ensures Meaning(Normal(s)) == Meaning(s)
  {
    var abs, comps := IsAbsolute(s), Components(s);
    TokensAreNames(s);
    ComponentsCanonical(s);
    GatherMeaning(abs, [], Tokens(s));
    if comps != [] {
      ShowReadsBack(abs, comps, EndsInSep(s));
    } else {
      DotTokens();
      assert WalkAll(abs, ["."]) == WalkAll(abs, []) by { FoldOne(Walk, Place(abs, 0, []), "."); }
    }
    hide Tokens, Gather, Canonical, Show;
  }

  lemma NormalOfDot()
    ensures Normal(".") == "." && Normal("./") == "./" && Normal("/") == "/"
  {
    DotTokens();
    FoldOne(Push(false), [], ".");
    hide Tokens;
  }

  /** Canonicalising twice changes nothing more. */
  lemma Idempotent(s: string)
    ensures Normal(Normal(s)) == Normal(s)
  {
    var abs, comps := IsAbsolute(s), Components(s);
    ComponentsCanonical(s);
    if comps != [] {
      ShowReadsBack(abs, comps, EndsInSep(s));
      CanonicalIsFixed(abs, comps, |comps|);
      assert comps[..|comps|] == comps;
    } else {
      NormalOfDot();
    }
    hide Tokens, Gather, Canonical;
  }
}
