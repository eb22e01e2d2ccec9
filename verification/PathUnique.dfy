/** When the canonical form is the only one: two paths to one place, canonicalised, read the same. */
module PathUnique {
  import opened Folds
  import opened PathSpec
  import opened Words

  // ----- the shortest path to a place ----------------------------------------------------------------

  /** The components of the shortest path to a place. */
  function Shortest(p: Place): seq<string> {
    Repeat("..", p.ups) + p.names
  }

  function PlaceText(p: Place, slash: bool): string {
    Show(p.abs, Shortest(p), slash)
  }

  /** The test of the ".." branch takes the name reached last for a "..". */
  predicate Misread(p: Place) {
    p.names != [] && StartsDotDot(p.names[|p.names| - 1]) && (p.abs || p.ups + |p.names| > 1)
  }

  predicate MisreadAt(abs: bool, tokens: seq<string>, i: nat) {
    i < |tokens| && tokens[i] == ".." && Misread(WalkAll(abs, tokens[..i]))
  }

  /** Some ".." follows, on the way, a name that begins with two dots. */
  ghost predicate Stuck(s: string) {
    exists i: nat :: MisreadAt(IsAbsolute(s), Tokens(s), i)
  }

  /** A ".." stands after something else. */
  ghost predicate Detour(comps: seq<string>) {
    exists m :: DetourAt(comps, m)
  }

  predicate DetourAt(comps: seq<string>, m: nat) {
    1 <= m < |comps| && comps[m] == ".." && comps[m - 1] != ".."
  }

  // ----- places ------------------------------------------------------------------------------------------

  /** What holds of every place reached by walking along tokens. */
  ghost predicate Reached(abs: bool, tokens: seq<string>, p: Place) {
    && p.abs == abs && (abs ==> p.ups == 0)
    && forall j :: 0 <= j < |p.names| ==> p.names[j] in tokens && p.names[j] != "." && p.names[j] != ".."
  }

  lemma ReachedStep(abs: bool, tokens: seq<string>, p: Place, x: string)
    requires Reached(abs, tokens, p)
    ensures Reached(abs, tokens + [x], Walk(p, x))
  {
  }

  lemma NothingWalked(abs: bool, tokens: seq<string>)
    ensures WalkAll(abs, tokens[..0]) == Place(abs, 0, []) && Reached(abs, tokens[..0], Place(abs, 0, []))
    ensures Gather(abs, [], tokens[..0]) == []
  {
  }

  lemma {:induction false} ReachedBy(abs: bool, tokens: seq<string>, n: nat)
    requires n <= |tokens|
    ensures Reached(abs, tokens[..n], WalkAll(abs, tokens[..n]))
    decreases n
  {
    hide Walk, Reached;
    if n == 0 {
      NothingWalked(abs, tokens);
    } else {
      ReachedBy(abs, tokens, n - 1);
      FoldSnoc(Walk, Place(abs, 0, []), tokens, n - 1);
      ReachedStep(abs, tokens[..n - 1], WalkAll(abs, tokens[..n - 1]), tokens[n - 1]);
      assert tokens[..n - 1] + [tokens[n - 1]] == tokens[..n];
    }
  }

  // ----- one token -----------------------------------------------------------------------------------------

  lemma ShortestStep(p: Place)
    requires p.names != []
    ensures Shortest(p)[..|Shortest(p)| - 1] == Shortest(p.(names := p.names[..|p.names| - 1]))
    ensures Shortest(p) != [] && Shortest(p)[|Shortest(p)| - 1] == p.names[|p.names| - 1]
  {
  }

  lemma ShortestUp(p: Place)
    requires p.names == []
    ensures Shortest(p) + [".."] == Shortest(p.(ups := p.ups + 1))
    ensures p.ups > 0 ==> Shortest(p)[|Shortest(p)| - 1] == ".."
  {
  }

  lemma ShortestDown(p: Place, x: string)
    ensures Shortest(p) + [x] == Shortest(p.(names := p.names + [x]))
  {
  }

  /** As long as no name is misread, the components gathered are the shortest. */
  lemma ShortestKept(abs: bool, tokens: seq<string>, p: Place, x: string)
    requires Reached(abs, tokens, p) && !(x == ".." && Misread(p))
    ensures Push(abs)(Shortest(p), x) == Shortest(Walk(p, x))
  {
    hide Shortest;
    if x != ".." {
      ShortestDown(p, x);
    } else if p.names != [] {
      ShortestStep(p);
      NoComponents(p);
    } else {
      hide Misread;
      ShortestUp(p);
      NoComponents(p);
      assert [] + [".."] == [".."];
    }
  }

  lemma NoComponents(p: Place)
    ensures |Shortest(p)| == p.ups + |p.names| && (p.ups == 0 && p.names == [] ==> Shortest(p) == [])
  {
  }

  lemma MisreadDetours(abs: bool, tokens: seq<string>, p: Place)
    requires Reached(abs, tokens, p) && Misread(p)
    ensures Detour(Push(abs)(Shortest(p), ".."))
  {
    ShortestStep(p);
    var n := |Shortest(p)|;
    var after := Push(abs)(Shortest(p), "..");
    assert n == p.ups + |p.names|;
    assert after == Shortest(p) + [".."];
    assert DetourAt(after, n);
  }

  /** A detour is never removed again. */
  lemma DetourStays(abs: bool, comps: seq<string>, x: string)
    requires Detour(comps)
    ensures Detour(Push(abs)(comps, x))
  {
    var m :| DetourAt(comps, m);
    assert DetourAt(Push(abs)(comps, x), m);
  }

  lemma NoDetour(abs: bool, tokens: seq<string>, p: Place)
    requires Reached(abs, tokens, p)
    ensures !Detour(Shortest(p))
  {
    forall m: nat
      ensures !DetourAt(Shortest(p), m)
    {
      if 1 <= m < |Shortest(p)| && m >= p.ups {
        assert Shortest(p)[m] == p.names[m - p.ups];
      }
    }
  }

  // ----- all tokens --------------------------------------------------------------------------------------

  ghost predicate StuckBefore(abs: bool, tokens: seq<string>, n: nat) {
    exists i: nat :: i < n && MisreadAt(abs, tokens, i)
  }

  lemma StuckNext(abs: bool, tokens: seq<string>, n: nat)
    ensures StuckBefore(abs, tokens, n + 1) <==> StuckBefore(abs, tokens, n) || MisreadAt(abs, tokens, n)
  {
    hide MisreadAt;
  }

  lemma {:induction false} Follow(abs: bool, tokens: seq<string>, n: nat)
    requires n <= |tokens|
    ensures var comps := Gather(abs, [], tokens[..n]);
            if StuckBefore(abs, tokens, n) then Detour(comps) else comps == Shortest(WalkAll(abs, tokens[..n]))
    decreases n
  {
    hide Push, Walk, Misread, Detour, Shortest;
    if n == 0 {
      NothingWalked(abs, tokens);
      NoComponents(Place(abs, 0, []));
    } else {
      var x := tokens[n - 1];
      var p := WalkAll(abs, tokens[..n - 1]);
      Follow(abs, tokens, n - 1);
      FoldSnoc(Push(abs), [], tokens, n - 1);
      FoldSnoc(Walk, Place(abs, 0, []), tokens, n - 1);
      StuckNext(abs, tokens, n - 1);
      ReachedBy(abs, tokens, n - 1);
      if StuckBefore(abs, tokens, n - 1) {
        DetourStays(abs, Gather(abs, [], tokens[..n - 1]), x);
      } else if MisreadAt(abs, tokens, n - 1) {
        MisreadDetours(abs, tokens[..n - 1], p);
      } else {
        ShortestKept(abs, tokens[..n - 1], p, x);
      }
    }
  }

  /** The components of the canonical form are the shortest ones exactly when no name is misread. */
  lemma ComponentsShortestIff(s: string)
    ensures Components(s) == Shortest(Meaning(s)) <==> !Stuck(s)
    ensures Stuck(s) ==> Detour(Components(s))
    ensures Reached(IsAbsolute(s), Tokens(s), Meaning(s))
  {
    hide Shortest, Detour, Gather, WalkAll, Misread, Reached;
    var abs, tokens := IsAbsolute(s), Tokens(s);
    Follow(abs, tokens, |tokens|);
    ReachedBy(abs, tokens, |tokens|);
    assert tokens[..|tokens|] == tokens;
    NoDetour(abs, tokens, Meaning(s));
    StuckAtAll(s);
  }

  lemma StuckAtAll(s: string)
    ensures Stuck(s) <==> StuckBefore(IsAbsolute(s), Tokens(s), |Tokens(s)|)
  {
    hide Tokens, Misread, WalkAll;
    var abs, tokens := IsAbsolute(s), Tokens(s);
    if i: nat :| MisreadAt(abs, tokens, i) {
      assert i < |tokens| && MisreadAt(abs, tokens, i);
    }
  }

  // ----- the text -------------------------------------------------------------------------------------------

  /** Component lists that are shown alike are equal, but for the lone dot that stands for an empty list. */
  lemma ShowInjective(abs: bool, xs: seq<string>, ys: seq<string>, slash: bool)
    requires Names(xs) && Names(ys) && xs != ["."] && ys != ["."]
    requires Show(abs, xs, slash) == Show(abs, ys, slash)
    ensures xs == ys
  {
    if xs != [] {
      ShowReadsBack(abs, xs, slash);
    }
    if ys != [] {
      ShowReadsBack(abs, ys, slash);
    }
    DotTokens();
    hide Tokens, Names;
  }

  lemma ShortestNames(s: string)
    ensures Names(Shortest(Meaning(s))) && Shortest(Meaning(s)) != ["."]
    ensures Meaning(s).abs == IsAbsolute(s)
  {
    var p := Meaning(s);
    ReachedBy(IsAbsolute(s), Tokens(s), |Tokens(s)|);
    assert Tokens(s)[..|Tokens(s)|] == Tokens(s);
    TokensAreNames(s);
    hide Tokens, WalkAll;
    forall i | 0 <= i < |Shortest(p)|
      ensures IsName(Shortest(p)[i]) && Shortest(p)[i] != "."
    {
      if i >= p.ups {
        assert Shortest(p)[i] == p.names[i - p.ups];
      }
    }
    LoneDot(Shortest(p));
  }

  lemma LoneDot(comps: seq<string>)
    requires comps == [] || comps[0] != "."
    ensures comps != ["."]
  {
  }

  lemma NotLoneDot(abs: bool, comps: seq<string>)
    requires Canonical(abs, comps)
    ensures Names(comps) && comps != ["."]
  {
    LoneDot(comps);
  }

  /** The canonical form is the shortest path to its place if and only if no name is misread on the way. */
  lemma ShortestIff(s: string)
    requires s != []
    ensures Normal(s) == PlaceText(Meaning(s), EndsInSep(s)) <==> !Stuck(s)
  {
    hide Shortest, Gather, WalkAll, Show, Stuck, Canonical, Meaning, Components, Names, IsAbsolute, EndsInSep;
    ComponentsShortestIff(s);
    ComponentsCanonical(s);
    NotLoneDot(IsAbsolute(s), Components(s));
    ShortestNames(s);
    if Normal(s) == PlaceText(Meaning(s), EndsInSep(s)) {
      ShowInjective(IsAbsolute(s), Components(s), Shortest(Meaning(s)), EndsInSep(s));
    }
  }

  /** Paths on which no name is misread lead to one place exactly when they are canonicalised alike. */
  lemma SamePlaceIff(s: string, t: string)
    requires s != [] && t != [] && !Stuck(s) && !Stuck(t) && EndsInSep(s) == EndsInSep(t)
    ensures Meaning(s) == Meaning(t) <==> Normal(s) == Normal(t)
  {
    hide *;
    MeaningPreserved(s);
    MeaningPreserved(t);
    ShortestIff(s);
    ShortestIff(t);
  }

  /** No component but ".." itself begins with two dots. */
  predicate NoDottedNames(s: string) {
    forall i :: 0 <= i < |Tokens(s)| ==> StartsDotDot(Tokens(s)[i]) ==> Tokens(s)[i] == ".."
  }

  lemma PlainIsNotStuck(s: string)
    requires NoDottedNames(s)
    ensures !Stuck(s)
  {
    var abs, tokens := IsAbsolute(s), Tokens(s);
    hide Tokens, WalkAll, StartsDotDot;
    forall i: nat | i < |tokens|
      ensures !MisreadAt(abs, tokens, i)
    {
      ReachedBy(abs, tokens, i);
    }
  }

  /** Without names that begin with two dots the canonical form is the path's place and its last slash, no more. */
  lemma PlainSamePlaceIff(s: string, t: string)
    requires s != [] && t != [] && NoDottedNames(s) && NoDottedNames(t) && EndsInSep(s) == EndsInSep(t)
    ensures Meaning(s) == Meaning(t) <==> Normal(s) == Normal(t)
  {
    hide *;
    PlainIsNotStuck(s);
    PlainIsNotStuck(t);
    SamePlaceIff(s, t);
  }

  // ----- a name that is misread ------------------------------------------------------------------------------

  lemma TokensOfCons(x: string, rest: string)
    requires IsName(x) && rest != []
    ensures Tokens(x + "/" + rest) == [x] + Tokens(rest)
  {
    TokensOfName(x, "/" + rest);
    TokensOfSep('/', rest);
    hide Tokens;
    assert x + "/" + rest == x + ("/" + rest) && "/" + rest == ['/'] + rest;
  }

  lemma TokensOfOne(x: string)
    requires IsName(x)
    ensures Tokens(x) == [x]
  {
    TokensOfName(x, "");
    TokensOfNothing();
    hide Tokens;
    assert x + "" == x && [x] + [] == [x];
  }

  /** A name, a name that begins with two dots, and the way back. */
  lemma WalkBack(x: string, y: string)
    requires x != "." && x != ".." && y != "." && y != ".." && StartsDotDot(y)
    ensures WalkAll(false, [x]) == WalkAll(false, [x, y, ".."]) && MisreadAt(false, [x, y, ".."], 2)
  {
    var p, tokens := Place(false, 0, []), [x, y, ".."];
    hide Push;
    FoldOne(Walk, p, x);
    FoldSnoc(Walk, p, tokens, 1);
    FoldSnoc(Walk, p, tokens, 2);
    assert tokens[..1] == [x] && tokens[..3] == tokens;
  }

  /** Two paths to one place with different canonical forms, for any name and any name that begins with two dots. */
  lemma MisreadName(x: string, y: string)
    requires IsName(x) && !StartsDotDot(x) && x != "." && IsName(y) && StartsDotDot(y) && y != ".."
    ensures var s := x + "/" + (y + "/" + ".."); Meaning(s) == Meaning(x) && Normal(s) != Normal(x)
  {
    var s := x + "/" + (y + "/" + "..");
    DotDotIsName();
    TokensOfCons(x, y + "/" + "..");
    TokensOfCons(y, "..");
    TokensOfOne("..");
    TokensOfOne(x);
    WalkBack(x, y);
    assert [x] + ([y] + [".."]) == [x, y, ".."];
    Ends(x, s);
    hide Tokens, WalkAll, MisreadAt, Normal, PlaceText, EndsInSep, IsAbsolute, IsName, StartsDotDot;
    PlainOne(x);
    PlainIsNotStuck(x);
    ShortestIff(x);
    ShortestIff(s);
  }

  lemma DotDotIsName()
    ensures IsName("..")
  {
  }

  lemma PlainOne(x: string)
    requires Tokens(x) == [x] && !StartsDotDot(x)
    ensures NoDottedNames(x)
  {
  }

  lemma Ends(x: string, s: string)
    requires IsName(x) && |s| >= |x| + 2 && s[0] == x[0] && s[|s| - 1] == '.'
    ensures !IsAbsolute(x) && !IsAbsolute(s) && !EndsInSep(x) && !EndsInSep(s)
  {
  }

  // ----- what separates, what is special -------------------------------------------------------------------

  /** A string without slash and backslash is one component. */
  lemma OneComponent(s: string)
    requires s != "" && '/' !in s && '\\' !in s
    ensures Tokens(s) == [s]
  {
    TokensOfOne(s);
  }

  /** Both separate, whatever stands around them. */
  lemma BothSeparate(s: string, t: string)
    ensures Tokens(s + "/" + t) == Tokens(s) + Tokens(t) && Tokens(s + "\\" + t) == Tokens(s) + Tokens(t)
  {
    TokensBeforeSep(s, "/" + t);
    TokensBeforeSep(s, "\\" + t);
    TokensOfSep('/', t);
    TokensOfSep('\\', t);
    hide Tokens;
    assert s + "/" + t == s + ("/" + t) && s + "\\" + t == s + ("\\" + t);
    assert "/" + t == ['/'] + t && "\\" + t == ['\\'] + t;
  }

  /** The prefix test takes a name for ".." when its first two characters are dots. */
  lemma DottedIff(s: string)
    ensures StartsDotDot(s) <==> |s| > 1 && s[0] == '.' && s[1] == '.'
  {
    if |s| > 1 {
      assert s[..2] == [s[0], s[1]];
    }
  }

  /** One level up from a directory, from here, and from the root. */
  lemma KnownPlaces(x: string)
    requires x != "." && x != ".."
    ensures WalkAll(false, [x, ".."]) == Place(false, 0, [])
    ensures WalkAll(false, ["..", x]) == Place(false, 1, [x])
    ensures WalkAll(true, ["..", x]) == Place(true, 0, [x])
  {
    FoldTwo(Walk, Place(false, 0, []), x, "..");
    FoldTwo(Walk, Place(false, 0, []), "..", x);
    FoldTwo(Walk, Place(true, 0, []), "..", x);
    assert [] + [x] == [x];
  }
}
