/** pathMatch: the recursive wildcard matcher, against the meaning of the wildcards. */
module PathMatch {
  import opened Words

  /** osTolower on the characters of the C locale. */
  function Lower(c: char): char {
    if 'A' <= c <= 'Z' then c - 'A' + 'a' else c
  }

  const CAPITALS := "ABCDEFGHIJKLMNOPQRSTUVWXYZ"
  const SMALL := "abcdefghijklmnopqrstuvwxyz"

  /** A capital and its small letter. */
  predicate Cases(i: int, c: char, d: char) {
    0 <= i < 26 && c == CAPITALS[i] && d == SMALL[i]
  }

  /** Equal, or the two cases of one letter. */
  ghost predicate SameLetter(c: char, d: char) {
    c == d || exists i :: Cases(i, c, d) || Cases(i, d, c)
  }

  lemma Alphabet(i: nat)
    requires i < 26
    ensures CAPITALS[i] == 'A' + i as char && SMALL[i] == 'a' + i as char
  {
  }

  /** osTolower forgets the case of a letter and nothing else. */
  lemma LowerIff(c: char, d: char)
    ensures Lower(c) == Lower(d) <==> SameLetter(c, d)
  {
    forall i | 0 <= i < 26
      ensures CAPITALS[i] == 'A' + i as char && SMALL[i] == 'a' + i as char
    {
      Alphabet(i);
    }
    hide CAPITALS, SMALL;
    if Lower(c) == Lower(d) && c != d {
      var i := (Lower(c) - 'a') as int;
      assert Cases(i, c, d) || Cases(i, d, c);
    }
  }

  /** What one pattern character may stand for. */
  predicate Fits(c: char, piece: string) {
    if c == '*' then true
    else if c == '?' then |piece| == 1
    else |piece| == 1 && Lower(piece[0]) == Lower(c)
  }

  /** The path is cut into one piece for every pattern character, and every piece fits its character. */
  predicate Cut(path: string, pattern: string, cuts: seq<nat>) {
    && |cuts| == |pattern| + 1 && cuts[0] == 0 && cuts[|pattern|] == |path|
    && forall j :: 0 <= j < |pattern| ==> PieceFits(path, pattern, cuts, j)
  }

  predicate PieceFits(path: string, pattern: string, cuts: seq<nat>, j: nat)
    requires j < |pattern| && |cuts| == |pattern| + 1
  {
    cuts[j] <= cuts[j + 1] <= |path| && Fits(pattern[j], path[cuts[j]..cuts[j + 1]])
  }

  ghost predicate Matches(path: string, pattern: string) {
    exists cuts :: Cut(path, pattern, cuts)
  }

  ghost predicate SameLetters(s: string, t: string) {
    |s| == |t| && forall i :: 0 <= i < |s| ==> SameLetter(s[i], t[i])
  }

  /** The case of the letters does not matter, in the path and in the pattern. */
  lemma CaseIgnored(path: string, pattern: string, path2: string, pattern2: string)
    requires SameLetters(path, path2) && SameLetters(pattern, pattern2)
    ensures Matches(path, pattern) ==> Matches(path2, pattern2)
  {
    if cuts :| Cut(path, pattern, cuts) {
      forall j | 0 <= j < |pattern|
        ensures PieceFits(path2, pattern2, cuts, j)
      {
        assert PieceFits(path, pattern, cuts, j);
        FitsInOtherCase(pattern[j], pattern2[j], path[cuts[j]..cuts[j + 1]], path2[cuts[j]..cuts[j + 1]]);
      }
      assert Cut(path2, pattern2, cuts);
    }
  }

  lemma FitsInOtherCase(c: char, d: char, piece: string, piece2: string)
    requires SameLetter(c, d) && SameLetters(piece, piece2) && Fits(c, piece)
    ensures Fits(d, piece2)
  {
    LowerIff(c, d);
    if |piece| == 1 {
      LowerIff(piece[0], piece2[0]);
    }
    NoCase(c, d, '*');
    NoCase(c, d, '?');
    hide SameLetter, Lower;
  }

  /** A character that is no letter has one case. */
  lemma NoCase(c: char, d: char, e: char)
    requires SameLetter(c, d) && (e == '*' || e == '?')
    ensures c == e <==> d == e
  {
    LowerIff(c, d);
    hide SameLetter;
  }

  lemma MatchesNothing(path: string)
    ensures Matches(path, "") <==> path == ""
  {
    if path == "" {
      assert Cut(path, "", [0]);
    }
  }

  lemma Prefixed(path: string, pattern: string, n: nat, cuts: seq<nat>)
    requires pattern != "" && n <= |path| && Fits(pattern[0], path[..n]) && Cut(path[n..], pattern[1..], cuts)
    ensures Matches(path, pattern)
  {
    var all := [0] + seq(|cuts|, j requires 0 <= j < |cuts| => n + cuts[j]);
    forall j | 0 <= j < |pattern|
      ensures PieceFits(path, pattern, all, j)
    {
      if j == 0 {
        assert path[..n] == path[0..all[1]];
      } else {
        assert PieceFits(path[n..], pattern[1..], cuts, j - 1);
        assert path[all[j]..all[j + 1]] == path[n..][cuts[j - 1]..cuts[j]];
        assert pattern[1..][j - 1] == pattern[j];
      }
    }
    assert Cut(path, pattern, all);
  }

  lemma Unprefixed(path: string, pattern: string, cuts: seq<nat>) returns (n: nat)
    requires pattern != "" && Cut(path, pattern, cuts)
    ensures n <= |path| && Fits(pattern[0], path[..n]) && Matches(path[n..], pattern[1..])
  {
    assert PieceFits(path, pattern, cuts, 0);
    n := cuts[1];
    assert path[0..n] == path[..n];
    CutsAscend(path, pattern, cuts, 1);
    var rest := seq(|pattern|, j requires 0 <= j < |pattern| => if cuts[j + 1] >= n then cuts[j + 1] - n else 0);
    forall j | 0 <= j < |pattern| - 1
      ensures PieceFits(path[n..], pattern[1..], rest, j)
    {
      assert PieceFits(path, pattern, cuts, j + 1);
      assert path[cuts[j + 1]..cuts[j + 2]] == path[n..][rest[j]..rest[j + 1]];
      assert pattern[1..][j] == pattern[j + 1];
    }
    assert Cut(path[n..], pattern[1..], rest);
  }

  lemma {:induction false} CutsAscend(path: string, pattern: string, cuts: seq<nat>, from: nat)
    requires Cut(path, pattern, cuts) && from <= |pattern|
    ensures forall j :: from <= j <= |pattern| ==> cuts[from] <= cuts[j]
    decreases |pattern| - from
  {
    if from < |pattern| {
      assert PieceFits(path, pattern, cuts, from);
      CutsAscend(path, pattern, cuts, from + 1);
    }
  }

  /** The first pattern character takes a first piece of the path. */
  lemma MatchesCons(path: string, pattern: string)
    requires pattern != ""
    ensures Matches(path, pattern)
       <==> exists n :: 0 <= n <= |path| && Fits(pattern[0], path[..n]) && Matches(path[n..], pattern[1..])
  {
    if Matches(path, pattern) {
      var cuts :| Cut(path, pattern, cuts);
      var n := Unprefixed(path, pattern, cuts);
    }
    if n :| 0 <= n <= |path| && Fits(pattern[0], path[..n]) && Matches(path[n..], pattern[1..]) {
      var cuts :| Cut(path[n..], pattern[1..], cuts);
      Prefixed(path, pattern, n, cuts);
    }
  }

  /** '?' and ordinary characters. */
  lemma OneStep(path: string, pattern: string)
    requires pattern != "" && pattern[0] != '*'
    ensures Matches(path, pattern)
       <==> path != "" && Fits(pattern[0], path[..1]) && Matches(path[1..], pattern[1..])
  {
    MatchesCons(path, pattern);
    hide Matches, Lower;
  }

  /** '*' takes nothing, or one more character. */
  lemma StarStep(path: string, pattern: string)
    requires pattern != "" && pattern[0] == '*'
    ensures Matches(path, pattern)
       <==> Matches(path, pattern[1..]) || (path != "" && Matches(path[1..], pattern))
  {
    hide Matches, Lower;
    MatchesCons(path, pattern);
    WholeSlice(path);
    if Matches(path, pattern) {
      var n :| 0 <= n <= |path| && Fits(pattern[0], path[..n]) && Matches(path[n..], pattern[1..]);
      if n > 0 {
        MatchesCons(path[1..], pattern);
        assert path[1..][n - 1..] == path[n..];
      }
    }
    if path != "" && Matches(path[1..], pattern) {
      MatchesCons(path[1..], pattern);
      var n :| 0 <= n <= |path[1..]| && Fits(pattern[0], path[1..][..n]) && Matches(path[1..][n..], pattern[1..]);
      assert path[1..][n..] == path[n + 1..];
    }
  }

  /** The character a NUL-terminated string shows at position i. */
  function At(s: string, i: nat): char
    requires i <= |s|
  {
    if i < |s| then s[i] else '\0'
  }

  predicate CString(s: string) {
    '\0' !in s
  }

  method PathMatch(path: string, pattern: string) returns (r: bool)
    requires CString(path) && CString(pattern)
    ensures r <==> Matches(path, pattern)
    decreases |pattern|
  {
    hide Matches;
    var i, j := 0, 0;
    WholeSlice(path);
    WholeSlice(pattern);
    while At(pattern, j) != '\0'
      invariant 0 <= i <= |path| && 0 <= j <= |pattern|
      invariant Matches(path, pattern) <==> Matches(path[i..], pattern[j..])
      decreases |path| - i + |pattern| - j
    {
      ghost var p, q := path[i..], pattern[j..];
      assert q[1..] == pattern[j + 1..] && q[0] == pattern[j];
      assert i < |path| ==> p[1..] == path[i + 1..] && p[..1] == [path[i]];
      if pattern[j] == '?' {
        OneStep(p, q);
        if At(path, i) == '\0' {
          return false;
        }
        i, j := i + 1, j + 1;
      } else if pattern[j] == '*' {
        StarStep(p, q);
        if At(path, i) == '\0' {
          j := j + 1;
        } else {
          var rest := PathMatch(path[i..], pattern[j + 1..]);
          if rest {
            return true;
          }
          i := i + 1;
        }
      } else {
        OneStep(p, q);
        if Lower(At(path, i)) != Lower(pattern[j]) {
          return false;
        }
        i, j := i + 1, j + 1;
      }
    }
    MatchesNothing(path[i..]);
    assert pattern[j..] == "";
    r := At(path, i) == '\0' && At(pattern, j) == '\0';
  }
}
