/**
 * What pathCanonicalize does to the text it has written so far when it meets the end of a
 * component, and why that is one step on the list of canonical components.
 */
module PathStep {
  import opened Folds
  import opened PathSpec

  /** The last slash strictly before position `end`, or -1. */
  function PrevSlash(out: string, end: nat): (p: int)
    requires end <= |out|
    ensures -1 <= p < end
    ensures p >= 0 ==> out[p] == '/'
    ensures forall i :: p < i < end ==> out[i] != '/'
  {
    if end == 0 then -1 else if out[end - 1] == '/' then end - 1 else PrevSlash(out, end - 1)
  }

  function Slash(slash: bool): string {
    if slash then "/" else ""
  }

  /** The "." branch. */
  function AfterDot(out: string, slash: bool, last: bool): string {
    if out == "" then
      if !slash then "." else if last then "./" else ""
    else if |out| > 1 then
      if !slash then out[..|out| - 1] else out
    else out
  }

  /** The ".." branch. */
  function AfterDotDot(out: string, slash: bool, last: bool): string {
    if out == "" then ".." + Slash(slash)
    else if |out| > 1 then
      var p := PrevSlash(out, |out| - 1);
      if p >= 0 then
        var base := if StartsDotDot(out[p + 1..]) then out + ".." else out[..p];
        if base == "" && out[0] == '/' then "/" else base + Slash(slash)
      else if |out| == 3 && StartsDotDot(out) then out + ".." + Slash(slash)
      else if !slash then "."
      else if last then "./"
      else ""
    else out
  }

  /**
   * The text after a component tok; slash says whether a slash ends the component, last whether
   * nothing follows it.
   */
  function AfterToken(out: string, tok: string, slash: bool, last: bool): string {
    if tok == "." then AfterDot(out, slash, last)
    else if tok == ".." then AfterDotDot(out, slash, last)
    else out + tok + Slash(slash)
  }

  // ----- one step on the components ----------------------------------------------------------------

  lemma DirShape(abs: bool, comps: seq<string>)
    requires Names(comps)
    ensures var d := Dir(abs, comps);
            && (d == "" <==> !abs && comps == [])
            && (d != "" ==> d[|d| - 1] == '/')
            && (comps == [] && abs ==> d == "/")
            && (comps != [] ==> |d| > 1)
            && (d != "" ==> (d[0] == '/' <==> abs))
  {
    if comps != [] {
      var n := |comps| - 1;
      DirStart(abs, comps);
    }
  }

  lemma {:induction false} DirStart(abs: bool, comps: seq<string>)
    requires Names(comps) && comps != []
    ensures |Dir(abs, comps)| >= 2 && (Dir(abs, comps)[0] == '/' <==> abs)
    decreases |comps|
  {
    var n := |comps| - 1;
    if n > 0 {
      DirStart(abs, comps[..n]);
    } else {
      assert comps[..n] == [];
      if !abs {
        assert Dir(abs, comps) == comps[0] + "/";
        assert comps[0][0] != '/';
      }
    }
  }

  /** A name between a directory text and a slash: the slash before it ends the directory text. */
  lemma LastSlash(pre: string, x: string)
    requires IsName(x) && (pre == "" || pre[|pre| - 1] == '/')
    ensures var d := pre + x + "/";
            && |d| >= 2 && PrevSlash(d, |d| - 1) == |pre| - 1 && d[|pre|..] == x + "/" && d[..|pre|] == pre
  {
    var d := pre + x + "/";
    var p := PrevSlash(d, |d| - 1);
    hide PrevSlash;
    forall i | |pre| <= i < |d| - 1
      ensures d[i] != '/'
    {
      assert d[i] == x[i - |pre|];
    }
    if pre != "" {
      assert d[|pre| - 1] == pre[|pre| - 1];
    }
  }

  lemma DirLast(abs: bool, comps: seq<string>)
    requires comps != []
    ensures Dir(abs, comps) == Dir(abs, comps[..|comps| - 1]) + comps[|comps| - 1] + "/"
  {
  }

  /** The last component of a directory text is what follows its second last slash. */
  lemma LastComponent(abs: bool, comps: seq<string>)
    requires Names(comps) && comps != []
    ensures var d := Dir(abs, comps);
            var n := |comps| - 1;
            var pre := Dir(abs, comps[..n]);
            && |d| >= 2
            && PrevSlash(d, |d| - 1) == |pre| - 1
            && d == pre + comps[n] + "/"
            && d[|pre|..] == comps[n] + "/" && d[..|pre|] == pre
  {
    hide Dir, PrevSlash;
    var n := |comps| - 1;
    DirShape(abs, comps[..n]);
    DirLast(abs, comps);
    LastSlash(Dir(abs, comps[..n]), comps[n]);
  }

  lemma StartsOfComponent(x: string)
    requires IsName(x)
    ensures StartsDotDot(x + "/") == StartsDotDot(x)
  {
    if |x| >= 2 {
      assert (x + "/")[..2] == x[..2];
    } else {
      assert (x + "/")[1] == '/';
      assert (x + "/")[..2][1] == '/';
    }
  }

  lemma DirSnoc(abs: bool, comps: seq<string>, x: string)
    ensures Dir(abs, comps + [x]) == Dir(abs, comps) + x + "/"
    ensures Show(abs, comps + [x], true) == Dir(abs, comps) + x + "/"
    ensures Show(abs, comps + [x], false) == Dir(abs, comps) + x
  {
    assert (comps + [x])[..|comps|] == comps;
  }

  /** A directory text without its final slash. */
  lemma DirStripped(abs: bool, comps: seq<string>)
    requires comps != []
    ensures Dir(abs, comps) == Show(abs, comps, true)
    ensures |Dir(abs, comps)| >= 1 && Dir(abs, comps)[..|Dir(abs, comps)| - 1] == Show(abs, comps, false)
  {
    var n := |comps| - 1;
    DirSnoc(abs, comps[..n], comps[n]);
    assert comps[..n] + [comps[n]] == comps;
    hide Show, Dir;
    var t := Dir(abs, comps[..n]) + comps[n];
    assert (t + "/")[..|t|] == t;
  }

  /** The text that stands for a list of components, by what follows it. */
  function Text(abs: bool, comps: seq<string>, slash: bool, last: bool): string {
    if slash && !last then Dir(abs, comps) else Show(abs, comps, slash)
  }

  lemma StepDot(abs: bool, comps: seq<string>, slash: bool, last: bool)
    requires Names(comps)
    ensures AfterDot(Dir(abs, comps), slash, last) == Text(abs, comps, slash, last)
  {
    DirShape(abs, comps);
    if comps != [] {
      DirStripped(abs, comps);
      hide Show, Dir;
    }
  }

  lemma StepName(abs: bool, comps: seq<string>, tok: string, slash: bool, last: bool)
    ensures Dir(abs, comps) + tok + Slash(slash) == Text(abs, comps + [tok], slash, last)
  {
    DirSnoc(abs, comps, tok);
    hide Show, Dir;
    assert Dir(abs, comps) + tok + "" == Dir(abs, comps) + tok;
  }

  /** What is left when the last component is taken off. */
  lemma TextOfPrefix(abs: bool, comps: seq<string>, slash: bool, last: bool)
    requires Names(comps) && Dir(abs, comps) != ""
    ensures var d := Dir(abs, comps);
            var base := d[..|d| - 1];
            (if base == "" && d[0] == '/' then "/" else base + Slash(slash)) == Text(abs, comps, slash, last)
  {
    DirShape(abs, comps);
    var d := Dir(abs, comps);
    if comps != [] {
      DirStripped(abs, comps);
      hide Show, Dir;
      assert d[..|d| - 1] + "/" == d;
      assert d[..|d| - 1] + "" == d[..|d| - 1];
    }
  }

  /** ".." after at least one earlier slash. */
  lemma StepUpFound(abs: bool, comps: seq<string>, slash: bool, last: bool)
    requires Names(comps) && comps != [] && Dir(abs, comps[..|comps| - 1]) != ""
    ensures var next := if StartsDotDot(comps[|comps| - 1]) then comps + [".."] else comps[..|comps| - 1];
            AfterDotDot(Dir(abs, comps), slash, last) == Text(abs, next, slash, last)
  {
    hide Dir, Show, Text, PrevSlash, StartsDotDot, Slash;
    var n := |comps| - 1;
    var d, pre, x := Dir(abs, comps), Dir(abs, comps[..n]), comps[n];
    LastComponent(abs, comps);
    StartsOfComponent(x);
    DirShape(abs, comps[..n]);
    assert d[0] == d[..|pre|][0];
    assert d[..|pre| - 1] == d[..|pre|][..|pre| - 1];
    if StartsDotDot(x) {
      StepName(abs, comps, "..", slash, last);
    } else {
      TextOfPrefix(abs, comps[..n], slash, last);
    }
  }

  /** ".." after a single relative component. */
  lemma StepUpSingle(x: string, slash: bool, last: bool)
    requires IsName(x)
    ensures var next := if x == ".." then ["..", ".."] else [];
            AfterDotDot(Dir(false, [x]), slash, last) == Text(false, next, slash, last)
  {
    LastComponent(false, [x]);
    assert [x][..0] == [];
    assert Dir(false, []) == "";
    var d := Dir(false, [x]);
    assert d == x + "/";
    StartsOfComponent(x);
    if x == ".." {
      StepName(false, [".."], "..", slash, last);
      assert [".."] + [".."] == ["..", ".."];
    }
    hide PrevSlash;
  }

  lemma StepUp(abs: bool, comps: seq<string>, slash: bool, last: bool)
    requires Names(comps)
    ensures AfterDotDot(Dir(abs, comps), slash, last) == Text(abs, Push(abs)(comps, ".."), slash, last)
  {
    hide AfterDotDot, Dir, Text, StartsDotDot;
    if comps == [] {
      StepUpEmpty(abs, slash, last);
    } else {
      var n := |comps| - 1;
      DirShape(abs, comps[..n]);
      if n == 0 && !abs {
        assert comps == [comps[0]] && comps[..0] == [] && comps + [".."] == [comps[0], ".."];
        StepUpSingle(comps[0], slash, last);
      } else {
        StepUpFound(abs, comps, slash, last);
      }
    }
  }

  /** ".." before anything else. */
  lemma StepUpEmpty(abs: bool, slash: bool, last: bool)
    ensures AfterDotDot(Dir(abs, []), slash, last) == Text(abs, if abs then [] else [".."], slash, last)
  {
    if !abs {
      StepName(false, [], "..", slash, last);
      assert [] + [".."] == [".."] && "" + ".." == "..";
    }
  }

  /** Every branch of pathCanonicalize is one step on the canonical components. */
  lemma StepToken(abs: bool, comps: seq<string>, tok: string, slash: bool, last: bool)
    requires Names(comps)
    ensures AfterToken(Dir(abs, comps), tok, slash, last) == Text(abs, Push(abs)(comps, tok), slash, last)
  {
    StepUp(abs, comps, slash, last);
    StepDot(abs, comps, slash, last);
    StepName(abs, comps, tok, slash, last);
    hide Dir, Text, AfterDot, AfterDotDot, Slash;
  }

  /** The text never grows past the characters read. */
  lemma StepFits(out: string, tok: string, slash: bool, last: bool)
    requires tok != "" || slash
    ensures |AfterToken(out, tok, slash, last)| <= |out| + |tok| + |Slash(slash)|
    ensures slash && AfterToken(out, tok, slash, last) != out && AfterToken(out, tok, slash, last) != ""
            ==> AfterToken(out, tok, slash, last)[|AfterToken(out, tok, slash, last)| - 1] == '/'
  {
    hide PrevSlash, StartsDotDot;
    if tok == ".." {
      DotDotFits(out, slash, last);
    } else if tok == "." {
    } else {
      SlashEnds(out + tok, slash);
    }
  }

  lemma DotDotFits(out: string, slash: bool, last: bool)
    ensures |AfterDotDot(out, slash, last)| <= |out| + 2 + |Slash(slash)|
    ensures slash && AfterDotDot(out, slash, last) != out && AfterDotDot(out, slash, last) != ""
            ==> AfterDotDot(out, slash, last)[|AfterDotDot(out, slash, last)| - 1] == '/'
  {
    hide AfterDotDot, Slash;
    var s := DotDotForm(out, slash, last);
    SlashEnds(s, slash);
  }

  /** What the ".." branches write is a shorter or longer text with the slash, or one of four fixed strings. */
  lemma DotDotForm(out: string, slash: bool, last: bool) returns (s: string)
    ensures |s| <= |out| + 2
    ensures var r := AfterDotDot(out, slash, last);
            r == s + Slash(slash) || r == out || r == "" || (r == "." && !slash && out != "")
            || (r == "./" && |out| > 1) || (r == "/" && out != "")
  {
    hide StartsDotDot, PrevSlash, Slash;
    s := "..";
    if |out| > 1 {
      var p := PrevSlash(out, |out| - 1);
      s := if p >= 0 && !StartsDotDot(out[p + 1..]) then out[..p] else out + "..";
    }
  }

  lemma SlashEnds(s: string, slash: bool)
    ensures var r := s + Slash(slash);
            |r| == |s| + |Slash(slash)| && |Slash(slash)| <= 1 && (slash ==> r[|r| - 1] == '/' && |Slash(slash)| == 1)
  {
  }
}
