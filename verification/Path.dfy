/** pathCanonicalize: the two in-place passes over one NUL-terminated buffer. */
module Path {
  import opened Folds
  import opened Words
  import opened PathSpec
  import opened PathForm
  import opened PathStep

  /** The buffer holds a string of length n. */
  predicate Holds(path: array<char>, n: nat)
    reads path
  {
    n < path.Length && path[n] == '\0' && forall i :: 0 <= i < n ==> path[i] != '\0'
  }

  // ----- first pass: one slash for every run of separators ---------------------------------------

  function SepRun(s: string): (n: nat)
    ensures n <= |s|
    ensures forall i :: 0 <= i < n ==> IsSep(s[i])
    ensures n < |s| ==> !IsSep(s[n])
  {
    if s == [] || !IsSep(s[0]) then 0 else 1 + SepRun(s[1..])
  }

  function Squash(s: string): string
    decreases |s|
  {
    if s == [] then []
    else if IsSep(s[0]) then "/" + Squash(s[SepRun(s)..])
    else [s[0]] + Squash(s[1..])
  }

  lemma SepRunAt(s: string, n: nat)
    requires n <= |s| && (forall i :: 0 <= i < n ==> IsSep(s[i])) && (n < |s| ==> !IsSep(s[n]))
    ensures SepRun(s) == n
  {
  }

  /** The inner loop: past a run of separators. */
  method SkipSeparators(path: array<char>, from: nat, ghost n: nat) returns (i: nat)
    requires from <= n < path.Length && path[n] == '\0'
    ensures from <= i <= n && !IsSep(path[i])
    ensures forall x :: from <= x < i ==> IsSep(path[x])
  {
    i := from;
    while path[i] == '/' || path[i] == '\\'
      invariant from <= i <= n
      invariant forall x :: from <= x < i ==> IsSep(path[x])
      decreases n - i
    {
      i := i + 1;
    }
  }

  lemma SquashSep(s: string, i: nat, j: nat)
    requires i < j <= |s| && (forall x :: i <= x < j ==> IsSep(s[x])) && (j < |s| ==> !IsSep(s[j]))
    ensures Squash(s[i..]) == "/" + Squash(s[j..])
  {
    var r := s[i..];
    SepRunAt(r, j - i);
    assert r[j - i..] == s[j..];
  }

  lemma SquashOther(s: string, i: nat)
    requires i < |s| && !IsSep(s[i])
    ensures Squash(s[i..]) == [s[i]] + Squash(s[i + 1..])
  {
    assert s[i..][1..] == s[i + 1..];
  }

  method Squeeze(path: array<char>, ghost n: nat) returns (k: nat)
    requires Holds(path, n)
    modifies path
    ensures k <= n && Holds(path, k)
    ensures path[..k] == Squash(old(path[..n]))
    ensures path[n + 1..] == old(path[n + 1..])
  {
    hide Squash;
    ghost var s := path[..n];
    var i := 0;
    k := 0;
    WholeSlice(s);
    while path[i] != '\0'
      invariant 0 <= k <= i <= n
      invariant forall x :: i <= x < path.Length ==> path[x] == old(path[x])
      invariant forall x :: 0 <= x < k ==> path[x] != '\0'
      invariant path[..k] + Squash(s[i..]) == Squash(s)
      decreases n - i
    {
      ghost var done, start := path[..k], i;
      assert s[start] == path[start];
      if path[i] == '/' || path[i] == '\\' {
        path[k] := '/';
        k := k + 1;
        i := SkipSeparators(path, i, n);
        assert path[..k] == done + "/";
        assert forall x :: start < x < i ==> s[x] == path[x];
        assert i < |s| ==> s[i] == path[i];
        SqueezedSep(s, done, start, i);
      } else {
        path[k] := path[i];
        k := k + 1;
        i := i + 1;
        assert path[..k] == done + [s[start]];
        SqueezedOther(s, done, start);
      }
    }
    assert s[i..] == [];
    SquashNothing();
    path[k] := '\0';
  }

  lemma SqueezedSep(s: string, done: string, i: nat, j: nat)
    requires i < j <= |s| && IsSep(s[i]) && (forall x :: i < x < j ==> IsSep(s[x])) && (j < |s| ==> !IsSep(s[j]))
    ensures (done + "/") + Squash(s[j..]) == done + Squash(s[i..])
  {
    hide Squash;
    SquashSep(s, i, j);
    assert (done + "/") + Squash(s[j..]) == done + ("/" + Squash(s[j..]));
  }

  lemma SqueezedOther(s: string, done: string, i: nat)
    requires i < |s| && !IsSep(s[i])
    ensures (done + [s[i]]) + Squash(s[i + 1..]) == done + Squash(s[i..])
  {
    hide Squash;
    SquashOther(s, i);
    assert (done + [s[i]]) + Squash(s[i + 1..]) == done + ([s[i]] + Squash(s[i + 1..]));
  }

  lemma SquashNothing()
    ensures Squash([]) == []
  {
  }

  // ----- the first pass keeps the components ----------------------------------------------------------

  lemma {:induction false} TokensAfterRun(s: string, n: nat)
    requires n <= |s| && forall i :: 0 <= i < n ==> IsSep(s[i])
    ensures Tokens(s) == Tokens(s[n..])
    decreases n
  {
    if n > 0 {
      TokensAfterRun(s[1..], n - 1);
      assert s[1..][n - 1..] == s[n..];
    } else {
      assert s[0..] == s;
    }
  }

  lemma {:induction false} SquashShape(s: string)
    ensures Clean(Squash(s))
    ensures IsAbsolute(Squash(s)) == IsAbsolute(s) && EndsInSep(Squash(s)) == EndsInSep(s)
    ensures Squash(s) == "" <==> s == ""
    decreases |s|
  {
    if s != [] {
      var n := if IsSep(s[0]) then SepRun(s) else 1;
      SquashShape(s[n..]);
      if s[n..] != [] {
        assert s[n..][|s[n..]| - 1] == s[|s| - 1];
      } else {
        assert IsSep(s[n - 1]) == IsSep(s[0]);
      }
      CleanCons(if IsSep(s[0]) then '/' else s[0], Squash(s[n..]));
    }
  }

  lemma CleanCons(c: char, t: string)
    requires Clean(t) && c != '\\' && (c == '/' ==> !IsAbsolute(t))
    ensures Clean([c] + t)
  {
    var r := [c] + t;
    forall i | 0 <= i < |r| - 1
      ensures !(r[i] == '/' && r[i + 1] == '/')
    {
      assert r[i + 1] == t[i];
      if i > 0 {
        assert r[i] == t[i - 1];
      }
    }
  }

  lemma {:induction false} SquashTokens(s: string)
    ensures Tokens(Squash(s)) == Tokens(s)
    decreases |s|
  {
    if s != [] {
      if IsSep(s[0]) {
        var n := SepRun(s);
        SquashTokens(s[n..]);
        TokensAfterRun(s, n);
        TokensOfSep('/', Squash(s[n..]));
      } else {
        var n := Run(s);
        SquashName(s, n);
        SquashTokens(s[n..]);
        SquashShape(s[n..]);
        TokensOfName(s[..n], Squash(s[n..]));
      }
    }
  }

  lemma {:induction false} SquashName(s: string, n: nat)
    requires n <= |s| && forall i :: 0 <= i < n ==> !IsSep(s[i])
    ensures Squash(s) == s[..n] + Squash(s[n..])
    decreases n
  {
    if n > 0 {
      SquashName(s[1..], n - 1);
      assert s[1..][n - 1..] == s[n..];
      assert s[..n] == [s[0]] + s[1..][..n - 1];
    } else {
      assert s[0..] == s;
    }
  }

  lemma SquashNormal(s: string)
    ensures Normal(Squash(s)) == Normal(s)
  {
    SquashTokens(s);
    SquashShape(s);
    hide Squash, Tokens, Show, Gather;
  }

  // ----- second pass: one component at a time -----------------------------------------------------------

  /** The component that ends at i, and what ends it. */
  predicate AtBoundary(path: array<char>, i: nat, j: nat, k: nat, m: nat)
    reads path
  {
    && k <= j <= i <= m < path.Length && path[m] == '\0'
    && (i < m ==> path[i] == '/' && i + 1 <= m)
    && (forall x :: j <= x < i ==> path[x] != '/' && path[x] != '\0')
    && (forall x :: i <= x < m ==> path[x] != '\0')
    && (forall x :: 0 <= x < k ==> path[x] != '\0')
    && (k > 0 ==> path[k - 1] == '/')
  }

  /** What a branch owes the rest of the pass: nothing from i on has changed. */
  twostate predicate Kept(path: array<char>, i: nat, k: nat, m: nat)
    reads path
  {
    && k <= (if i < m then i + 1 else i)
    && forall x :: i <= x < path.Length ==> path[x] == old(path[x])
  }

  /** The "." branch in place. */
  method WriteDot(path: array<char>, i: nat, j: nat, k0: nat, ghost m: nat) returns (k: nat)
    requires AtBoundary(path, i, j, k0, m) && i - j == 1
    modifies path
    ensures Kept(path, i, k, m) && k <= path.Length
    ensures path[..k] == AfterDot(old(path[..k0]), i < m, i == m || i + 1 == m)
  {
    k := k0;
    if k == 0 {
      if path[i] == '\0' {
        path[k] := '.';
        k := k + 1;
      } else if path[i] == '/' && path[i + 1] == '\0' {
        path[k] := '.';
        k := k + 1;
        path[k] := '/';
        k := k + 1;
      }
    } else if k > 1 {
      if path[i] == '\0' {
        k := k - 1;
      }
    }
  }

  /** Appends a slash if one ends the component. */
  method AppendSlash(path: array<char>, i: nat, k0: nat, ghost m: nat) returns (k: nat)
    requires k0 <= i <= m < path.Length && path[m] == '\0' && (i < m ==> path[i] == '/')
    modifies path
    ensures Kept(path, i, k, m) && k <= path.Length
    ensures path[..k] == old(path[..k0]) + Slash(i < m)
  {
    k := k0;
    if path[i] == '/' {
      path[k] := '/';
      k := k + 1;
    }
  }

  /** Appends "..", and a slash if one ends the component. */
  method AppendUp(path: array<char>, i: nat, k0: nat, ghost m: nat) returns (k: nat)
    requires k0 + 2 <= i <= m < path.Length && path[m] == '\0' && (i < m ==> path[i] == '/')
    modifies path
    ensures Kept(path, i, k, m) && k <= path.Length
    ensures path[..k] == old(path[..k0]) + ".." + Slash(i < m)
  {
    k := k0;
    path[k] := '.';
    k := k + 1;
    path[k] := '.';
    k := k + 1;
    assert path[..k] == old(path[..k0]) + "..";
    k := AppendSlash(path, i, k, m);
  }

  /** Looks back for the slash before the last component: it is at k - j - 1, or nowhere when j == k. */
  method FindSlash(path: array<char>, k: nat) returns (j: nat)
    requires 1 < k <= path.Length
    ensures 1 <= j <= k && k - j - 1 == PrevSlash(path[..k], k - 1)
  {
    j := 1;
    while j < k
      invariant 1 <= j <= k
      invariant PrevSlash(path[..k], k - j) == PrevSlash(path[..k], k - 1)
    {
      if path[k - j - 1] == '/' {
        return;
      }
      j := j + 1;
    }
  }

  /** ".." when an earlier slash stands at k0 - j - 1. */
  method UpFound(path: array<char>, i: nat, j0: nat, k0: nat, j: nat, ghost m: nat) returns (k: nat)
    requires AtBoundary(path, i, j0, k0, m) && i - j0 == 2
    requires 1 <= j < k0 && k0 - j - 1 == PrevSlash(path[..k0], k0 - 1)
    modifies path
    ensures Kept(path, i, k, m) && k <= path.Length
    ensures path[..k] == AfterDotDot(old(path[..k0]), i < m, i == m || i + 1 == m)
  {
    hide StartsDotDot, PrevSlash;
    k := k0;
    ghost var out := path[..k];
    ghost var p := k - j - 1;
    PairAt(out, p + 1);
    if path[k - j] == '.' && path[k - j + 1] == '.' {
      k := AppendUp(path, i, k, m);
    } else {
      k := k - j - 1;
      assert path[..k] == out[..p];
      if k == 0 && path[0] == '/' {
        path[k] := '/';
        k := k + 1;
      } else if path[i] == '/' {
        path[k] := '/';
        k := k + 1;
      }
    }
  }

  /** Comparing two characters is comparing a two-character prefix, after a slash-terminated text. */
  lemma PairAt(out: string, at: nat)
    requires at + 1 <= |out| && out[|out| - 1] == '/'
    ensures StartsDotDot(out[at..]) <==> out[at] == '.' && at + 1 < |out| && out[at + 1] == '.'
  {
    if at + 1 < |out| {
      assert out[at..][..2] == [out[at], out[at + 1]];
    }
  }

  /** ".." when the text holds a single relative component. */
  method UpSingle(path: array<char>, i: nat, j0: nat, k0: nat, ghost m: nat) returns (k: nat)
    requires AtBoundary(path, i, j0, k0, m) && i - j0 == 2
    requires k0 > 1 && PrevSlash(path[..k0], k0 - 1) < 0
    modifies path
    ensures Kept(path, i, k, m) && k <= path.Length
    ensures path[..k] == AfterDotDot(old(path[..k0]), i < m, i == m || i + 1 == m)
  {
    k := k0;
    ghost var out := path[..k];
    PairAt(out, 0);
    assert out[0..] == out;
    hide StartsDotDot, PrevSlash;
    if k == 3 && path[0] == '.' && path[1] == '.' {
      k := AppendUp(path, i, k, m);
    } else if path[i] == '\0' {
      k := 0;
      path[k] := '.';
      k := k + 1;
    } else if path[i] == '/' && path[i + 1] == '\0' {
      k := 0;
      path[k] := '.';
      k := k + 1;
      path[k] := '/';
      k := k + 1;
    } else {
      k := 0;
    }
  }

  /** The ".." branch in place. */
  method WriteDotDot(path: array<char>, i: nat, j0: nat, k0: nat, ghost m: nat) returns (k: nat)
    requires AtBoundary(path, i, j0, k0, m) && i - j0 == 2
    modifies path
    ensures Kept(path, i, k, m) && k <= path.Length
    ensures path[..k] == AfterDotDot(old(path[..k0]), i < m, i == m || i + 1 == m)
  {
    k := k0;
    if k == 0 {
      k := AppendUp(path, i, k, m);
    } else if k > 1 {
      var j := FindSlash(path, k);
      if j < k {
        k := UpFound(path, i, j0, k, j, m);
      } else {
        k := UpSingle(path, i, j0, k, m);
      }
    }
  }

  /** osMemmove */
  method Memmove(path: array<char>, k: nat, j: nat, n: nat)
    requires k <= j && j + n <= path.Length
    modifies path
    ensures path[..k + n] == old(path[..k]) + old(path[j..j + n])
    ensures forall x :: k + n <= x < path.Length ==> path[x] == old(path[x])
  {
    ghost var was := path[..];
    forall x | k <= x < k + n {
      path[x] := path[j + (x - k)];
    }
    assert path[..k + n] == was[..k] + was[j..j + n];
  }

  /** An ordinary component is moved down and a slash appended if necessary. */
  method WriteName(path: array<char>, i: nat, j: nat, k0: nat, ghost m: nat) returns (k: nat)
    requires AtBoundary(path, i, j, k0, m)
    modifies path
    ensures Kept(path, i, k, m) && k <= path.Length
    ensures path[..k] == old(path[..k0]) + old(path[j..i]) + Slash(i < m)
  {
    k := k0;
    Memmove(path, k, j, i - j);
    k := k + (i - j);
    k := AppendSlash(path, i, k, m);
  }

  /** The three branches for a component path[j..i]. */
  method EndToken(path: array<char>, i: nat, j: nat, k0: nat, ghost m: nat) returns (k: nat)
    requires AtBoundary(path, i, j, k0, m)
    modifies path
    ensures k <= (if i < m then i + 1 else i) && k <= path.Length && path[i..] == old(path[i..])
    ensures path[..k] == AfterToken(old(path[..k0]), old(path[j..i]), i < m, i == m || i + 1 == m)
  {
    ghost var tok := path[j..i];
    if i - j == 1 && path[j] == '.' {
      assert tok == ".";
      k := WriteDot(path, i, j, k0, m);
    } else if i - j == 2 && path[j] == '.' && path[j + 1] == '.' {
      assert tok == "..";
      k := WriteDotDot(path, i, j, k0, m);
    } else {
      assert |tok| == 1 ==> tok[0] == path[j];
      assert |tok| == 2 ==> tok[0] == path[j] && tok[1] == path[j + 1];
      assert tok != "." && tok != "..";
      k := WriteName(path, i, j, k0, m);
    }
  }

  // ----- the whole pass -----------------------------------------------------------------------------------

  /** Between components: what is written is the text of the canonical components so far. */
  ghost predicate Between(t: string, comps: seq<string>, out: string, j: nat) {
    && j <= |t| && Names(comps)
    && (if j == 0 then out == "" && comps == [] else out == Dir(IsAbsolute(t), comps))
    && (j > 0 && j < |t| ==> !IsSep(t[j]))
    && Gather(IsAbsolute(t), comps, Tokens(t[j..])) == Components(t)
  }

  lemma BetweenStart(t: string)
    ensures Between(t, [], "", 0)
  {
    WholeSlice(t);
  }

  lemma OutEndsInSlash(t: string, comps: seq<string>, out: string, j: nat)
    requires Between(t, comps, out, j)
    ensures out != "" ==> out[|out| - 1] == '/'
  {
    if j > 0 {
      DirShape(IsAbsolute(t), comps);
    }
  }

  /** The leading slash of an absolute path. */
  lemma RootStep(t: string)
    requires Clean(t) && IsAbsolute(t)
    ensures AfterToken("", "", true, |t| == 1) == "/"
    ensures Between(t, [], "/", 1)
  {
    TokensAfterRun(t, 1);
    assert t[0] == '/';
    if |t| > 1 {
      NoDoubleSlash(t, 0);
    }
    WholeSlice(t);
  }

  lemma GatherCons(abs: bool, comps: seq<string>, x: string, rest: seq<string>)
    ensures Gather(abs, comps, [x] + rest) == Gather(abs, Push(abs)(comps, x), rest)
  {
    hide Push;
    assert ([x] + rest)[1..] == rest;
  }

  lemma NextTokens(t: string, j: nat, i: nat)
    requires j < i < |t| && t[i] == '/' && forall x :: j <= x < i ==> !IsSep(t[x])
    ensures IsName(t[j..i]) && Tokens(t[j..]) == [t[j..i]] + Tokens(t[i + 1..])
  {
    var r := ['/'] + t[i + 1..];
    assert t[j..] == t[j..i] + r;
    hide Tokens;
    TokensOfName(t[j..i], r);
    TokensOfSep('/', t[i + 1..]);
  }

  lemma LastToken(t: string, j: nat)
    requires j < |t| && forall x :: j <= x < |t| ==> !IsSep(t[x])
    ensures IsName(t[j..]) && Tokens(t[j..]) == [t[j..]] + Tokens([])
  {
    assert t[j..] + [] == t[j..];
    hide Tokens;
    TokensOfName(t[j..], []);
  }

  lemma PushNames(abs: bool, comps: seq<string>, x: string)
    requires Names(comps) && IsName(x)
    ensures Names(Push(abs)(comps, x))
  {
  }

  /** A component that ends in a slash at i. */
  lemma SlashStep(t: string, comps: seq<string>, out: string, j: nat, i: nat)
    requires Clean(t) && Between(t, comps, out, j) && j < i < |t| && t[i] == '/'
    requires forall x :: j <= x < i ==> !IsSep(t[x])
    ensures var next := Push(IsAbsolute(t))(comps, t[j..i]);
            var text := AfterToken(out, t[j..i], true, i + 1 == |t|);
            && (i + 1 < |t| ==> Between(t, next, text, i + 1))
            && (i + 1 == |t| ==> text == Normal(t))
  {
    hide Push, AfterToken, Show, Tokens, Clean, Gather;
    var abs, tok := IsAbsolute(t), t[j..i];
    assert out == Dir(abs, comps);
    hide Dir;
    StepToken(abs, comps, tok, true, i + 1 == |t|);
    NextTokens(t, j, i);
    GatherCons(abs, comps, tok, Tokens(t[i + 1..]));
    PushNames(abs, comps, tok);
    if i + 1 < |t| {
      NoDoubleSlash(t, i);
    } else {
      assert t[i + 1..] == [];
      NothingLeft(abs, Push(abs)(comps, tok));
    }
  }

  lemma NothingLeft(abs: bool, comps: seq<string>)
    ensures Gather(abs, comps, Tokens([])) == comps
  {
  }

  /** The component the string ends with. */
  lemma EndStep(t: string, comps: seq<string>, out: string, j: nat)
    requires Between(t, comps, out, j) && j < |t|
    requires forall x :: j <= x < |t| ==> !IsSep(t[x])
    ensures AfterToken(out, t[j..], false, true) == Normal(t)
  {
    hide Push, AfterToken, Show, Tokens, Gather;
    var abs, tok := IsAbsolute(t), t[j..];
    assert out == Dir(abs, comps);
    hide Dir;
    StepToken(abs, comps, tok, false, true);
    LastToken(t, j);
    GatherCons(abs, comps, tok, Tokens([]));
    NothingLeft(abs, Push(abs)(comps, tok));
    assert !IsSep(t[|t| - 1]);
  }

  /** Nothing from j on has been touched, and no separator lies between j and i. */
  predicate Scanned(path: array<char>, t: string, i: nat, j: nat, k: nat)
    reads path
  {
    && k <= j <= i <= |t| < path.Length
    && (j > 0 ==> j < i)
    && (IsAbsolute(t) && j == 0 ==> i == 0)
    && (forall x :: j <= x < |t| ==> path[x] == t[x]) && path[|t|] == '\0'
    && (forall x :: 0 <= x < k ==> path[x] != '\0')
    && (forall x :: j <= x < i ==> !IsSep(t[x]))
  }

  predicate NoNul(t: string) {
    forall x :: 0 <= x < |t| ==> t[x] != '\0'
  }

  lemma BoundaryHere(path: array<char>, t: string, out: string, i: nat, j: nat, k: nat)
    requires Scanned(path, t, i, j, k) && NoNul(t) && out == path[..k] && (out != "" ==> out[|out| - 1] == '/')
    requires path[i] == '/' || path[i] == '\0'
    ensures AtBoundary(path, i, j, k, |t|)
    ensures path[j..i] == t[j..i]
    ensures i < |t| ==> t[i] == '/'
  {
    assert k > 0 ==> path[k - 1] == out[k - 1];
  }

  lemma NoNulParts(a: string, b: string, n: nat)
    requires NoNul(a) && NoNul(b) && n <= |a|
    ensures NoNul(a + b) && NoNul(a[..n])
  {
  }

  lemma FixedPiecesHaveNoNul()
    ensures NoNul("") && NoNul("/") && NoNul(".") && NoNul("./") && NoNul("..") && NoNul("../")
  {
  }

  /** No branch writes a terminator. */
  lemma ShowHasNoNul(out: string, tok: string, slash: bool, last: bool)
    requires NoNul(out) && NoNul(tok)
    ensures NoNul(AfterToken(out, tok, slash, last))
  {
    FixedPiecesHaveNoNul();
    var s := Slash(slash);
    hide NoNul, StartsDotDot, PrevSlash;
    NoNulParts(out, tok, if |out| > 0 then |out| - 1 else 0);
    NoNulParts(out + tok, s, 0);
    NoNulParts(out, "..", 0);
    NoNulParts(out + "..", s, 0);
    if |out| > 1 {
      var p := PrevSlash(out, |out| - 1);
      if p >= 0 {
        NoNulParts(out, s, p);
        NoNulParts(out[..p], s, 0);
      }
    }
  }

  lemma AtStart(t: string, comps: seq<string>, out: string)
    requires Between(t, comps, out, 0)
    ensures out == "" && comps == []
  {
  }

  /** What a component that ends in a slash does to the invariant of the pass. */
  lemma Advance(t: string, comps: seq<string>, out: string, i: nat, j: nat) returns (next: seq<string>)
    requires Clean(t) && Between(t, comps, out, j) && j <= i < |t| && t[i] == '/'
    requires (j > 0 ==> j < i) && (IsAbsolute(t) && j == 0 ==> i == 0)
    requires forall x :: j <= x < i ==> !IsSep(t[x])
    ensures var text := AfterToken(out, t[j..i], true, i + 1 == |t|);
            && (i + 1 < |t| ==> Between(t, next, text, i + 1) && !IsSep(t[i + 1]))
            && (i + 1 == |t| ==> text == Normal(t))
  {
    if i + 1 < |t| {
      NoDoubleSlash(t, i);
    }
    hide AfterToken, Clean, Between, Normal, Push;
    if i == 0 {
      AtStart(t, comps, out);
      RootStep(t);
      assert t[0..0] == "";
      next := [];
      if |t| == 1 {
        assert t == "/";
        NormalOfDot();
      }
    } else {
      SlashStep(t, comps, out, j, i);
      next := Push(IsAbsolute(t))(comps, t[j..i]);
    }
  }

  /** pathCanonicalize on a buffer that holds a string of length n. */
  method Canonicalize(path: array<char>, ghost n: nat) returns (ghost k: nat)
    requires Holds(path, n)
    modifies path
    ensures k <= n && Holds(path, k)
    ensures path[..k] == Normal(old(path[..n]))
    ensures path[n + 1..] == old(path[n + 1..])
  {
    ghost var s := path[..n];
    ghost var m := Squeeze(path, n);
    ghost var t := path[..m];
    SquashShape(s);
    SquashNormal(s);
    k := SecondPass(path, m);
  }

  /** Past the slash at i, if there is one. */
  method SkipSlashes(path: array<char>, from: nat, ghost m: nat) returns (i: nat)
    requires from <= m < path.Length && path[m] == '\0'
    requires from < m && path[from] == '/' ==> path[from + 1] != '/'
    ensures i == if path[from] == '/' then from + 1 else from
  {
    i := from;
    while path[i] == '/'
      invariant from <= i <= m && (i > from ==> i == from + 1 && path[from] == '/')
      decreases m - i
    {
      i := i + 1;
    }
  }

  /** A component that ends at i has been dealt with: t goes on after a slash, or it is done. */
  ghost predicate Ended(t: string, next: seq<string>, text: string, i: nat)
    requires i <= |t|
  {
    && NoNul(text)
    && (i + 1 < |t| ==> Between(t, next, text, i + 1) && !IsSep(t[i + 1]))
    && (i + 1 >= |t| ==> text == Normal(t))
  }

  lemma LastPiece(t: string, comps: seq<string>, out: string, j: nat)
    requires Between(t, comps, out, j) && j <= |t| && (j > 0 ==> j < |t|)
    requires forall x :: j <= x < |t| ==> !IsSep(t[x])
    ensures AfterToken(out, t[j..], false, true) == Normal(t)
  {
    hide AfterToken, Normal, Between;
    if t == "" {
      AtStart(t, comps, out);
      EmptyPath();
    } else {
      EndStep(t, comps, out, j);
    }
  }

  lemma AtSlash(t: string, comps: seq<string>, out: string, i: nat, j: nat) returns (next: seq<string>)
    requires j <= i < |t| && t[i] == '/' && Clean(t) && NoNul(t[j..i]) && NoNul(out) && Between(t, comps, out, j)
    requires (j > 0 ==> j < i) && (IsAbsolute(t) && j == 0 ==> i == 0)
    requires forall x :: j <= x < i ==> !IsSep(t[x])
    ensures Ended(t, next, AfterToken(out, t[j..i], true, i + 1 == |t|), i)
  {
    hide Clean, Normal, AfterToken, Between, NoNul, IsSep, IsAbsolute;
    ShowHasNoNul(out, t[j..i], true, i + 1 == |t|);
    next := Advance(t, comps, out, i, j);
  }

  lemma AtEnd(t: string, comps: seq<string>, out: string, j: nat)
    requires j <= |t| && (j > 0 ==> j < |t|) && NoNul(t[j..]) && NoNul(out) && Between(t, comps, out, j)
    requires forall x :: j <= x < |t| ==> !IsSep(t[x])
    ensures Ended(t, [], AfterToken(out, t[j..], false, true), |t|)
  {
    hide Normal, AfterToken, Between, NoNul, IsSep;
    ShowHasNoNul(out, t[j..], false, true);
    LastPiece(t, comps, out, j);
  }

  /** What any component does to the invariant of the pass. */
  lemma AfterBoundary(t: string, comps: seq<string>, out: string, i: nat, j: nat) returns (next: seq<string>)
    requires Clean(t) && NoNul(t) && NoNul(out) && Between(t, comps, out, j) && j <= i <= |t|
    requires (i < |t| ==> t[i] == '/') && (j > 0 ==> j < i) && (IsAbsolute(t) && j == 0 ==> i == 0)
    requires forall x :: j <= x < i ==> !IsSep(t[x])
    ensures Ended(t, next, AfterToken(out, t[j..i], i < |t|, i == |t| || i + 1 == |t|), i)
  {
    assert NoNul(t[j..i]);
    hide Clean, Ended, AfterToken, Between, NoNul, IsSep, IsAbsolute;
    next := [];
    if i < |t| {
      next := AtSlash(t, comps, out, i, j);
    } else {
      assert t[j..i] == t[j..];
      AtEnd(t, comps, out, j);
    }
  }

  lemma ScannedOut(path: array<char>, t: string, i: nat, j: nat, k: nat)
    requires Scanned(path, t, i, j, k)
    ensures k <= path.Length && NoNul(path[..k]) && i <= |t| < path.Length
  {
  }

  /** One more character of the component. */
  lemma ScanOn(path: array<char>, t: string, i: nat, j: nat, k: nat)
    requires Scanned(path, t, i, j, k) && path[i] != '/' && path[i] != '\0'
    requires forall x :: 0 <= x < |t| ==> t[x] != '\\'
    ensures Scanned(path, t, i + 1, j, k)
  {
  }

  /** The first character of the next component. */
  lemma ScanFresh(path: array<char>, t: string, i: nat, k: nat)
    requires k <= i < |t| < path.Length && 0 < i && path[|t|] == '\0'
    requires (forall x :: i <= x < |t| ==> path[x] == t[x]) && NoNul(path[..k]) && !IsSep(t[i])
    ensures Scanned(path, t, i + 1, i, k)
  {
    assert forall x :: 0 <= x < k ==> path[..k][x] == path[x];
  }

  /** From position `from` on the buffer still holds t. */
  predicate Rest(path: array<char>, t: string, from: nat)
    reads path
  {
    from <= |t| < path.Length && path[|t|] == '\0' && forall x :: from <= x < |t| ==> path[x] == t[x]
  }

  /** What EndToken will find, and what it will leave. */
  lemma Foreseen(path: array<char>, t: string, comps: seq<string>, i: nat, j: nat, k: nat)
    returns (next: seq<string>)
    requires Clean(t) && NoNul(t) && Scanned(path, t, i, j, k) && k <= path.Length
    requires Between(t, comps, path[..k], j)
    requires path[i] == '/' || path[i] == '\0'
    ensures AtBoundary(path, i, j, k, |t|)
    ensures Ended(t, next, AfterToken(path[..k], path[j..i], i < |t|, i == |t| || i + 1 == |t|), i)
  {
    var out := path[..k];
    OutEndsInSlash(t, comps, out, j);
    ScannedOut(path, t, i, j, k);
    BoundaryHere(path, t, out, i, j, k);
    hide Clean, NoNul, Between, Ended, AfterToken;
    next := AfterBoundary(t, comps, out, i, j);
  }

  lemma TailOf(path: array<char>, t: string, i: nat, j: nat, k: nat)
    requires Scanned(path, t, i, j, k)
    ensures k <= j <= i <= |t| < path.Length
    ensures path[i..] == t[i..] + path[|t|..] && path[|t|] == '\0'
  {
  }

  lemma RestNow(path: array<char>, t: string, i: nat, z: string)
    requires i <= |t| < path.Length && path[i..] == t[i..] + z && z != "" && z[0] == '\0'
    ensures Rest(path, t, i) && path[|t|..] == z
  {
    var p := path[i..];
    assert forall x :: i <= x < |t| ==> path[x] == p[x - i] == t[i..][x - i];
    assert path[|t|] == p[|t| - i];
    assert p[|t| - i..] == z;
  }

  /** The end of a component: write it. */
  method TakeToken(path: array<char>, i: nat, j: nat, k0: nat, ghost t: string, ghost comps: seq<string>)
    returns (k: nat, ghost next: seq<string>)
    requires Clean(t) && NoNul(t) && Scanned(path, t, i, j, k0) && k0 <= path.Length
    requires Between(t, comps, path[..k0], j)
    requires i <= |t| < path.Length && (path[i] == '/' || path[i] == '\0')
    modifies path
    ensures Rest(path, t, i) && k <= (if i < |t| then i + 1 else i) && Ended(t, next, path[..k], i)
    ensures path[|t|..] == old(path[|t|..])
  {
    hide *;
    next := Foreseen(path, t, comps, i, j, k0);
    TailOf(path, t, i, j, k0);
    ghost var z := path[|t|..];
    k := EndToken(path, i, j, k0, |t|);
    RestNow(path, t, i, z);
  }

  /** The pass is inside the component that starts at j. */
  ghost predicate Going(path: array<char>, t: string, comps: seq<string>, i: nat, j: nat, k: nat)
    reads path
  {
    Scanned(path, t, i, j, k) && k <= path.Length && Between(t, comps, path[..k], j)
  }

  ghost predicate Finished(path: array<char>, t: string, k: nat)
    reads path
  {
    k <= |t| < path.Length && path[..k] == Normal(t) && NoNul(path[..k])
  }

  /** Where the next component starts, if there is one. */
  lemma NextStarts(path: array<char>, t: string, next: seq<string>, i: nat, k: nat)
    requires Clean(t) && NoNul(t) && Rest(path, t, i) && k <= (if i < |t| then i + 1 else i)
    requires Ended(t, next, path[..k], i) && (i < |t| ==> t[i] == '/')
    ensures i < |t| <==> path[i] == '/'
    ensures i < |t| ==> path[i + 1] != '/'
    ensures i + 1 < |t| ==> Going(path, t, next, i + 2, i + 1, k) && path[i + 1] != '\0'
    ensures i + 1 >= |t| ==> Finished(path, t, k) && path[|t|] == '\0'
  {
    hide Clean, Between, Normal;
    if i + 1 < |t| {
      assert path[i + 1] == t[i + 1];
      ScanFresh(path, t, i + 1, k);
    }
  }

  lemma FirstScan(path: array<char>, t: string)
    requires Holds(path, |t|) && path[..|t|] == t && Clean(t)
    ensures Going(path, t, [], 0, 0, 0) && NoNul(t) && |t| < path.Length
  {
    BetweenStart(t);
    assert path[..0] == "";
    assert forall x :: 0 <= x < |t| ==> path[x] == path[..|t|][x];
  }

  lemma GoingBounds(path: array<char>, t: string, comps: seq<string>, i: nat, j: nat, k: nat)
    requires Going(path, t, comps, i, j, k) && NoNul(t)
    ensures Scanned(path, t, i, j, k) && k <= j <= i <= |t| < path.Length && Between(t, comps, path[..k], j)
    ensures i < |t| ==> path[i] == t[i] && path[i] != '\0'
    ensures i == |t| ==> path[i] == '\0'
  {
  }

  lemma GoingWithin(path: array<char>, t: string, comps: seq<string>, i: nat, j: nat, k: nat)
    requires Going(path, t, comps, i, j, k)
    ensures i <= |t| < path.Length
  {
  }

  /** One more character of the component. */
  lemma GoOn(path: array<char>, t: string, comps: seq<string>, i: nat, j: nat, k: nat)
    requires Going(path, t, comps, i, j, k) && Clean(t) && path[i] != '/' && path[i] != '\0'
    ensures Going(path, t, comps, i + 1, j, k)
  {
    assert forall x :: 0 <= x < |t| ==> t[x] != '\\';
    hide Clean, Between;
    ScanOn(path, t, i, j, k);
  }

  lemma FinishedFacts(path: array<char>, t: string, k: nat)
    requires Finished(path, t, k)
    ensures k <= |t| < path.Length && path[..k] == Normal(t) && NoNul(path[..k])
  {
  }

  lemma HoldsNow(path: array<char>, k: nat)
    requires k < path.Length && path[k] == '\0' && NoNul(path[..k])
    ensures Holds(path, k)
  {
    assert forall x :: 0 <= x < k ==> path[x] == path[..k][x];
  }

  /** Writes the component that ends at i0, then moves to the next token. */
  method NextToken(path: array<char>, i0: nat, j: nat, k0: nat, ghost t: string, ghost comps: seq<string>)
    returns (i: nat, k: nat, ghost next: seq<string>)
    requires Clean(t) && NoNul(t) && Going(path, t, comps, i0, j, k0)
    requires i0 <= |t| < path.Length && (path[i0] == '/' || path[i0] == '\0')
    modifies path
    ensures i0 <= i <= |t| && path[|t|..] == old(path[|t|..])
    ensures path[i] != '\0' ==> Going(path, t, next, i + 1, i, k)
    ensures path[i] == '\0' ==> Finished(path, t, k)
  {
    hide *;
    GoingBounds(path, t, comps, i0, j, k0);
    k, next := TakeToken(path, i0, j, k0, t, comps);
    RestBounds(path, t, i0);
    NextStarts(path, t, next, i0, k);
    i := SkipSlashes(path, i0, |t|);
  }

  lemma RestBounds(path: array<char>, t: string, i: nat)
    requires Rest(path, t, i)
    ensures path[|t|] == '\0'
  {
  }

  lemma TailOfTail(path: array<char>, m: nat, z: string)
    requires m < path.Length && path[m..] == z
    ensures z != "" && path[m + 1..] == z[1..]
  {
  }

  method Terminate(path: array<char>, k: nat, ghost m: nat)
    requires k <= m < path.Length && NoNul(path[..k])
    modifies path
    ensures Holds(path, k) && path[..k] == old(path[..k]) && path[m + 1..] == old(path[m + 1..])
  {
    ghost var out, z := path[..k], path[m + 1..];
    path[k] := '\0';
    assert path[..k] == out && path[m + 1..] == z;
    HoldsNow(path, k);
  }

  /** The loop of the second pass, over an already squeezed string t. */
  method Rewrite(path: array<char>, ghost t: string) returns (k: nat)
    requires NoNul(t) && Clean(t) && Going(path, t, [], 0, 0, 0) && |t| < path.Length
    modifies path
    ensures Finished(path, t, k)
    ensures path[|t|..] == old(path[|t|..])
  {
    hide *;
    ghost var comps := [];
    var i: nat, j: nat := 0, 0;
    k := 0;
    var more := true;
    while more
      invariant more ==> Going(path, t, comps, i, j, k)
      invariant !more ==> Finished(path, t, k)
      invariant path[|t|..] == old(path[|t|..])
      decreases |t| + 1 - i
    {
      GoingWithin(path, t, comps, i, j, k);
      if path[i] == '/' || path[i] == '\0' {
        i, k, comps := NextToken(path, i, j, k, t, comps);
        j := i;
      } else {
        GoOn(path, t, comps, i, j, k);
      }
      more := path[i] != '\0';
      i := i + 1;
    }
  }

  /** The second pass. */
  method SecondPass(path: array<char>, ghost m: nat) returns (ghost length: nat)
    requires Holds(path, m) && Clean(path[..m])
    modifies path
    ensures length <= m && Holds(path, length)
    ensures path[..length] == Normal(old(path[..m]))
    ensures path[m + 1..] == old(path[m + 1..])
  {
    ghost var t, z := path[..m], path[m..];
    FirstScan(path, t);
    TailOfTail(path, m, z);
    hide *;
    var k := Rewrite(path, t);
    FinishedFacts(path, t, k);
    TailOfTail(path, m, z);
    Terminate(path, k, m);
    length := k;
  }

  lemma EmptyPath()
    ensures AfterToken("", "", false, true) == "" == Normal("")
  {
  }
}
