/** path_cat, path_abs, path_common and path_rel: joining paths, and the relative path that undoes
    a join. */
module PathRel {
  import opened Wrappers
  import opened Paths
  import opened PathScan
  import opened Canonize

  /** b seen from a. */
  function Cat(a: string, b: string): string {
    if b == "" then a
    else if a == "" || Rooted(b) then b
    else a + (if a[|a| - 1] == '/' then "" else "/") + b
  }

  lemma CatComps(a: string, b: string)
    requires a != "" && !Rooted(b)
    ensures Comps(Cat(a, b)) == Comps(a) + Comps(b)
    ensures Rooted(Cat(a, b)) == Rooted(a)
  {
    hide Comps;
    if b == "" {
      CompsConcat(a, b);
      assert a + b == a;
    } else if a[|a| - 1] == '/' {
      CompsConcat(a, b);
      assert a + "" + b == a + b;
    } else {
      SlashComps(b);
      CompsConcat(a, "/" + b);
      assert Cat(a, b) == a + ("/" + b);
    }
  }

  /** path_cat: nothing is written unless cap > the length; out may be a. */
  method PathCat(out: array<char>, cap: nat, a: array<char>, an: nat, b: string) returns (need: nat)
    requires an <= a.Length && cap <= out.Length
    modifies out
    ensures need == |Cat(old(a[..an]), b)|
    ensures cap > need ==> out[..need] == Cat(old(a[..an]), b) && out[need] == '\0'
    ensures cap <= need ==> out[..] == old(out[..])
  {
    ghost var src := a[..an];
    var n, sep := an, 0;
    if |b| == 0 {
      need := an;
    } else if an == 0 || b[0] == '/' {
      need, n := |b|, 0;
    } else {
      sep := if a[an - 1] == '/' then 0 else 1;
      need := an + sep + |b|;
    }
    if cap > need {
      if n > 0 && out != a {
        ByteCopy(out, 0, n, a, 0);
      }
      assert out[..n] == src[..n];
      if sep == 1 {
        out[n] := '/';
      }
      ghost var joined := src[..n] + (if sep == 1 then "/" else "");
      assert out[..n + sep] == joined;
      CopyString(out, n + sep, b);
      assert out[..need] == joined + b;
      out[need] := '\0';
    }
  }

  method CopyString(out: array<char>, w: nat, b: string)
    requires w + |b| <= out.Length
    modifies out
    ensures out[..w + |b|] == old(out[..w]) + b
  {
    var k := 0;
    while k < |b|
      invariant k <= |b|
      invariant out[..w + k] == old(out[..w]) + b[..k]
    {
      out[w + k] := b[k];
      k := k + 1;
    }
  }

  /** path_abs: joins into out and makes the result canonical in place. */
  method PathAbs(out: array<char>, cap: nat, p: string, cwd: array<char>, cwdn: nat) returns (len: nat)
    requires cwdn <= cwd.Length && cap <= out.Length
    modifies out
    ensures cap < cwdn + |p| + 3 ==> len == cwdn + |p| + 2 && out[..] == old(out[..])
    ensures cap >= cwdn + |p| + 3 ==>
              len < cap && out[len] == '\0' && out[..len] == Canon(Cat(old(cwd[..cwdn]), p))
  {
    var m := cwdn + |p| + 2;
    if cap < m + 1 {
      return m;
    }
    m := PathCat(out, cap, cwd, cwdn, p);
    len := PathCanon(out, cap, out, m);
  }

  /** An absolute working directory makes the result absolute, and it is canonical. */
  lemma AbsIsCanonical(cwd: string, p: string)
    requires Rooted(cwd)
    ensures Rooted(Canon(Cat(cwd, p)))
    ensures Canon(Canon(Cat(cwd, p))) == Canon(Cat(cwd, p))
    ensures Rooted(p) ==> Canon(Cat(cwd, p)) == Canon(p)
    ensures !Rooted(p) ==> Canon(Cat(cwd, p)) == Render(true, PushAll(true, PushAll(true, [], Comps(cwd)), Comps(p)))
  {
    CanonIdempotent(Cat(cwd, p));
    if !Rooted(p) {
      CatComps(cwd, p);
      PushAllConcat(true, [], Comps(cwd), Comps(p));
    }
  }

  /** How many components two lists have in common at the start. */
  function Common(xs: seq<string>, ys: seq<string>): (k: nat)
    ensures k <= |xs| && k <= |ys|
  {
    if xs != [] && ys != [] && xs[0] == ys[0] then 1 + Common(xs[1..], ys[1..]) else 0
  }

  lemma {:induction false} CommonIsLongest(xs: seq<string>, ys: seq<string>, m: nat)
    requires m <= |xs| && m <= |ys|
    ensures xs[..m] == ys[..m] <==> m <= Common(xs, ys)
  {
    if m > 0 {
      if xs[0] == ys[0] {
        CommonIsLongest(xs[1..], ys[1..], m - 1);
        assert xs[..m] == [xs[0]] + xs[1..][..m - 1];
        assert ys[..m] == [ys[0]] + ys[1..][..m - 1];
        assert xs[..m] == ys[..m] ==> xs[..m][1..] == ys[..m][1..];
      } else {
        assert xs[..m][0] != ys[..m][0];
      }
    }
  }

  lemma CutAt(s: string, e: nat, k: nat)
    requires Boundary(s, e) && k <= |Comps(s)| && Comps(s[e..]) == Comps(s)[k..]
    ensures Comps(s[..e]) == Comps(s)[..k]
  {
    CompsConcat(s[..e], s[e..]);
    assert s == s[..e] + s[e..];
    var xs, ys := Comps(s[..e]), Comps(s[e..]);
    assert |xs| == k && (xs + ys)[..k] == xs;
  }

  /** The cut e of s is right after its first k components, and excludes the separators after them. */
  ghost predicate CutAfter(s: string, e: nat, k: nat) {
    && e <= |s| && k <= |Comps(s)|
    && Comps(s[..e]) == Comps(s)[..k] && Comps(s[e..]) == Comps(s)[k..]
    && (if k == 0 then e == SepRun(s) else s[..e] != "" && s[e - 1] != '/')
  }

  /** The scan of s: k components end at e, and the next one starts at i. */
  ghost predicate Scanned(s: string, e: nat, i: nat, k: nat) {
    && e <= i <= |s| && k <= |Comps(s)| && Boundary(s, e)
    && Comps(s[e..]) == Comps(s)[k..] && Comps(s[i..]) == Comps(s)[k..]
    && (i < |s| ==> s[i] != '/')
    && (if k == 0 then e == SepRun(s) else e > 0 && s[e - 1] != '/')
  }

  lemma ScanStart(s: string)
    ensures Scanned(s, SepRun(s), SepsEnd(s, SepRun(s)), 0)
  {
    hide Comps;
    CompsSkip(s);
    SkipSeps(s, SepRun(s));
  }

  lemma ScanNext(s: string, e: nat, i: nat, k: nat)
    requires Scanned(s, e, i, k)
    ensures var e' := ComEnd(s, i);
            && (e' == i <==> k == |Comps(s)|)
            && (e' > i ==> Comps(s)[k] == s[i..e'] && Scanned(s, e', SepsEnd(s, e'), k + 1))
  {
    hide Comps, ComEnd, SepsEnd, Boundary;
    AtEnd(s);
    if i < |s| {
      ComponentAt(s, i);
      SkipSeps(s, ComEnd(s, i));
      var cs := Comps(s);
      assert cs[k..][0] == s[i..ComEnd(s, i)] && cs[k..][1..] == cs[k + 1..];
    }
  }

  lemma ScanEnd(s: string, e: nat, i: nat, k: nat)
    requires Scanned(s, e, i, k)
    ensures CutAfter(s, e, k)
  {
    CutAt(s, e, k);
  }

  lemma {:induction false} CommonIs(xs: seq<string>, ys: seq<string>, k: nat)
    requires k <= |xs| && k <= |ys| && xs[..k] == ys[..k]
    requires k == |xs| || k == |ys| || xs[k] != ys[k]
    ensures Common(xs, ys) == k
  {
    if k > 0 {
      assert xs[..k][0] == ys[..k][0] && xs[..k][1..] == xs[1..][..k - 1] && ys[..k][1..] == ys[1..][..k - 1];
      CommonIs(xs[1..], ys[1..], k - 1);
    }
  }

  /** path_common. */
  method PathCommon(a: string, b: string) returns (ea: nat, eb: nat)
    ensures Rooted(a) != Rooted(b) ==> ea == 0 && eb == 0
    ensures Rooted(a) == Rooted(b) ==>
              var k := Common(Comps(a), Comps(b)); CutAfter(a, ea, k) && CutAfter(b, eb, k)
  {
    hide Comps, ComEnd, SepsEnd, CutAfter, Common, Scanned;
    var ra, rb := SepRun(a), SepRun(b);
    if (ra == 0) != (rb == 0) {
      return 0, 0;
    }
    var ia: nat, ib: nat := SepsEnd(a, ra), SepsEnd(b, rb);
    ScanStart(a);
    ScanStart(b);
    ea, eb := ra, rb;
    ghost var k: nat := 0;
    while true
      invariant ia <= |a| && ib <= |b| && k <= |Comps(a)| && k <= |Comps(b)|
      invariant Scanned(a, ea, ia, k) && Scanned(b, eb, ib, k)
      invariant Comps(a)[..k] == Comps(b)[..k]
      decreases |a| - ia
    {
      var na, nb := ComEnd(a, ia), ComEnd(b, ib);
      ScanNext(a, ea, ia, k);
      ScanNext(b, eb, ib, k);
      if na == ia || na - ia != nb - ib || a[ia..na] != b[ib..nb] {
        break;
      }
      k := k + 1;
      ea, eb := na, nb;
      ia, ib := SepsEnd(a, ea), SepsEnd(b, eb);
    }
    CommonIs(Comps(a), Comps(b), k);
    ScanEnd(a, ea, ia, k);
    ScanEnd(b, eb, ib, k);
  }

  function Dots(n: nat): seq<string> {
    seq(n, _ => "..")
  }

  /** The text path_rel writes: n times "..", then the rest. */
  function RelText(n: nat, rest: string): string {
    if n == 0 && rest == "" then "."
    else Join(Dots(n)) + (if n > 0 && rest != "" then "/" else "") + rest
  }

  function Strip(s: string): (r: string)
    ensures |r| <= |s| && r == s[..|r|]
    ensures r != "" ==> r[|r| - 1] != '/'
    ensures forall t | |r| <= t < |s| :: s[t] == '/'
  {
    if s != "" && s[|s| - 1] == '/' then Strip(s[..|s| - 1]) else s
  }

  lemma {:induction false} StripComps(s: string)
    ensures Comps(Strip(s)) == Comps(s)
    decreases |s|
  {
    if s != "" && s[|s| - 1] == '/' {
      var t := s[..|s| - 1];
      StripComps(t);
      CompsConcat(t, "/");
      assert s == t + "/" && Comps("/") == [];
    }
  }

  lemma {:induction false} DotsText(n: nat)
    ensures |Join(Dots(n))| == (if n == 0 then 0 else 3 * n - 1)
    ensures n > 0 ==> Join(Dots(n)) == Join(Dots(n - 1)) + (if n == 1 then "" else "/") + ".."
  {
    assert n > 0 ==> Dots(n)[..n - 1] == Dots(n - 1);
    if n > 1 {
      DotsText(n - 1);
    }
  }

  /** path_rel: None for two paths that do not share a root; nothing is written unless cap > the
      length. */
  method PathRel(out: array<char>, cap: nat, p: string, base: string) returns (r: Option<nat>, ghost rest: string)
    requires cap <= out.Length
    modifies out
    ensures r.None? <==> Rooted(p) != Rooted(base)
    ensures r.Some? ==>
              var cs, bs := Comps(p), Comps(base);
              var k := Common(cs, bs);
              && Comps(rest) == cs[k..] && !Rooted(rest)
              && r.value == |RelText(|bs| - k, rest)|
              && (cap > r.value ==> out[..r.value] == RelText(|bs| - k, rest) && out[r.value] == '\0')
    ensures (r.Some? ==> cap <= r.value) ==> out[..] == old(out[..])
  {
    hide Comps, ComEnd, SepsEnd, Common, Join, RelText;
    if Rooted(p) != Rooted(base) {
      return None, "";
    }
    ghost var cs, bs := Comps(p), Comps(base);
    ghost var k := Common(cs, bs);
    var ca, cb := PathCommon(p, base);
    var from := SepsEnd(p, ca);
    SkipSeps(p, ca);
    var tail := Strip(p[from..]);
    StripComps(p[from..]);
    assert tail != "" ==> tail[0] == p[from..][0] == p[from];
    var up: nat := 0;
    var i: nat := SepsEnd(base, cb);
    SkipSeps(base, cb);
    while i < |base|
      modifies {}
      invariant i <= |base| && k + up <= |bs|
      invariant i < |base| ==> base[i] != '/'
      invariant Comps(base[i..]) == bs[k + up..]
      decreases |base| - i
    {
      ComponentAt(base, i);
      i := ComEnd(base, i);
      SkipSeps(base, i);
      i := SepsEnd(base, i);
      assert bs[k + up..][1..] == bs[k + up + 1..];
      up := up + 1;
    }
    AtEnd(base);
    RelTextLength(up, tail);
    var len := up * 2 + (if up > 0 then up - 1 else 0) + (if up > 0 && tail != "" then 1 else 0) + |tail|;
    if len == 0 {
      len := 1;
    }
    if cap > len {
      WriteRel(out, up, tail);
      out[len] := '\0';
    }
    return Some(len), tail;
  }

  lemma RelTextLength(n: nat, rest: string)
    ensures var len := n * 2 + (if n > 0 then n - 1 else 0) + (if n > 0 && rest != "" then 1 else 0) + |rest|;
            |RelText(n, rest)| == if len == 0 then 1 else len
  {
    DotsText(n);
  }

  /** c at out[o]. */
  method PutChar(out: array<char>, o: nat, c: char)
    requires o < out.Length
    modifies out
    ensures out[..o + 1] == old(out[..o]) + [c]
  {
    out[o] := c;
  }

  /** "..", as often as there is to climb. */
  method WriteDots(out: array<char>, up: nat) returns (o: nat)
    requires |Join(Dots(up))| <= out.Length
    modifies out
    ensures o == |Join(Dots(up))| && out[..o] == Join(Dots(up))
  {
    hide Join, Dots;
    DotsText(up);
    DotsText(0);
    o := 0;
    var i := 0;
    while i < up
      invariant i <= up && o == |Join(Dots(i))| <= |Join(Dots(up))| <= out.Length
      invariant out[..o] == Join(Dots(i))
    {
      DotsText(i + 1);
      if i > 0 {
        PutChar(out, o, '/');
        o := o + 1;
      }
      PutChar(out, o, '.');
      o := o + 1;
      PutChar(out, o, '.');
      o := o + 1;
      i := i + 1;
    }
  }

  method WriteRel(out: array<char>, up: nat, rest: string)
    requires |RelText(up, rest)| < out.Length
    modifies out
    ensures out[..|RelText(up, rest)|] == RelText(up, rest)
  {
    hide Join, Dots;
    DotsText(up);
    var o := WriteDots(out, up);
    if up > 0 && rest != "" {
      PutChar(out, o, '/');
      o := o + 1;
    }
    CopyString(out, o, rest);
    o := o + |rest|;
    if o == 0 {
      PutChar(out, o, '.');
    }
  }
}
