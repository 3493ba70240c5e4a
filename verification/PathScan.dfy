/** Stepping through a path: where a component or a run of separators ends, and what is left. */
module PathScan {
  import opened Paths

  lemma {:induction false} CompsSkip(s: string)
    ensures Comps(s) == Comps(s[SepRun(s)..])
  {
    if s != "" && s[0] == '/' {
      CompsSkip(s[1..]);
      assert s[SepRun(s)..] == s[1..][SepRun(s[1..])..];
    } else {
      assert s[0..] == s;
    }
  }

  lemma CompsStep(s: string)
    requires s != "" && s[0] != '/'
    ensures var c := ComRun(s);
            && c > 0 && Name(s[..c])
            && Comps(s) == [s[..c]] + Comps(s[c..][SepRun(s[c..])..])
  {
    assert s[..ComRun(s)][0] == s[0];
    CompsSkip(s[ComRun(s)..]);
  }

  lemma SlashComps(b: string)
    ensures Comps("/" + b) == Comps(b)
  {
    assert ("/" + b)[1..] == b;
  }

  /** Past the run of separators at e. */
  function SepsEnd(s: string, e: nat): (i: nat)
    requires e <= |s|
    ensures e <= i <= |s|
  {
    e + SepRun(s[e..])
  }

  /** Past the component at i. */
  function ComEnd(s: string, i: nat): (e: nat)
    requires i <= |s|
    ensures i <= e <= |s|
  {
    i + ComRun(s[i..])
  }

  /** s can be cut at e without cutting a component. */
  predicate Boundary(s: string, e: nat) {
    e <= |s| && (e == 0 || e == |s| || s[e] == '/' || s[e - 1] == '/')
  }

  lemma SkipSeps(s: string, e: nat)
    requires e <= |s|
    ensures var i := SepsEnd(s, e); Comps(s[e..]) == Comps(s[i..]) && (i < |s| ==> s[i] != '/')
  {
    hide Comps;
    CompsSkip(s[e..]);
    var k := SepRun(s[e..]);
    assert s[e..][k..] == s[e + k..];
    assert e + k < |s| ==> s[e..][k] == s[e + k];
  }

  /** The component at i, which is not a separator. */
  lemma ComponentAt(s: string, i: nat)
    requires i < |s| && s[i] != '/'
    ensures var e := ComEnd(s, i);
            && i < e && Name(s[i..e]) && s[e - 1] != '/' && Boundary(s, e)
            && Comps(s[i..]) == [s[i..e]] + Comps(s[e..])
  {
    hide Comps, Name, ComRun;
    var t := s[i..];
    CompsStep(t);
    CompsSkip(t[ComRun(t)..]);
    Within(s, i, ComRun(t));
  }

  /** A piece of a tail is a piece of the whole. */
  lemma Within(s: string, i: nat, c: nat)
    requires 0 < c && i + c <= |s|
    ensures var t := s[i..];
            && t[..c] == s[i..i + c] && t[c..] == s[i + c..] && t[c - 1] == s[i + c - 1]
            && (i + c < |s| ==> t[c] == s[i + c])
  {
  }

  lemma AtEnd(s: string)
    ensures ComEnd(s, |s|) == |s| && Comps(s[|s|..]) == []
  {
    assert s[|s|..] == "";
  }
}
