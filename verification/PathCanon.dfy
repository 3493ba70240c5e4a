/** path_canon: the lexical canonical form, written into a buffer that may be the input itself. */
module Canonize {
  import opened Paths
  import opened PathScan

  /** byte_copy within or between buffers, front to back. */
  method ByteCopy(out: array<char>, w: nat, c: nat, p: array<char>, r: nat)
    requires w + c <= out.Length && r + c <= p.Length
    requires out != p || w <= r
    modifies out
    ensures out[w..w + c] == old(p[r..r + c])
    ensures out[..w] == old(out[..w]) && forall k | w + c <= k < out.Length :: out[k] == old(out[k])
  {
    ghost var src := p[r..r + c];
    var k := 0;
    while k < c
      invariant k <= c
      invariant out[w..w + k] == src[..k]
      invariant forall i | k <= i < c :: p[r + i] == src[i]
      invariant out[..w] == old(out[..w]) && forall k | w + c <= k < out.Length :: out[k] == old(out[k])
    {
      out[w + k] := p[r + k];
      assert out[w..w + k + 1] == out[w..w + k] + [src[k]];
      k := k + 1;
    }
    assert src[..c] == src;
  }

  lemma TextSnoc(abs: bool, st: seq<string>, c: string)
    ensures Text(abs, st + [c]) == Text(abs, st) + (if st == [] then "" else "/") + c
  {
    assert (st + [c])[..|st|] == st;
  }

  lemma {:induction false} TextGrows(abs: bool, st: seq<string>, k: nat)
    requires Names(st) && k <= |st|
    ensures |Text(abs, st[..k])| <= |Text(abs, st)|
    ensures k < |st| ==> |Text(abs, st[..k])| < |Text(abs, st)|
    decreases |st|
  {
    if k < |st| {
      var init := st[..|st| - 1];
      assert st == init + [st[|st| - 1]] && st[..k] == init[..k];
      assert Name(st[|st| - 1]);
      TextSnoc(abs, init, st[|st| - 1]);
      TextGrows(abs, init, k);
    } else {
      assert st[..k] == st;
    }
  }

  function UpsText(abs: bool, st: seq<string>): nat {
    |Text(abs, st[..Ups(st)])|
  }

  /** The buffer ends in the text of the stack's top; base is where the poppable part starts. */
  lemma TopOfText(abs: bool, st: seq<string>)
    requires NormalForm(abs, st)
    ensures |Text(abs, st)| >= UpsText(abs, st)
    ensures |Text(abs, st)| > UpsText(abs, st) <==> |st| > Ups(st)
    ensures |Text(abs, st)| > (if abs then 1 else 0) <==> st != []
    ensures |st| > Ups(st) ==>
              var rest, top := st[..|st| - 1], st[|st| - 1];
              && NormalForm(abs, rest) && Ups(rest) == Ups(st) && UpsText(abs, rest) == UpsText(abs, st)
              && Text(abs, st) == Text(abs, rest) + (if rest == [] then "" else "/") + top
              && Proper(top) && |Text(abs, rest)| >= UpsText(abs, rest)
              && (rest == [] ==> |Text(abs, rest)| == UpsText(abs, st))
  {
    hide Join;
    NormalNames(abs, st);
    TextGrows(abs, st, Ups(st));
    TextOfNone(abs, st);
    assert Ups(st) == |st| ==> st[..Ups(st)] == st;
    if |st| > Ups(st) {
      var rest, top := st[..|st| - 1], st[|st| - 1];
      assert st == rest + [top];
      TextSnoc(abs, rest, top);
      RestNormal(abs, st);
      NormalNames(abs, rest);
      TextGrows(abs, rest, Ups(rest));
      assert rest == [] ==> rest[..Ups(rest)] == rest;
    }
  }

  lemma TextOfNone(abs: bool, st: seq<string>)
    requires Names(st)
    ensures |Text(abs, st)| > (if abs then 1 else 0) <==> st != []
  {
    TextGrows(abs, st, 0);
    assert st[..0] == [];
  }

  lemma RestNormal(abs: bool, st: seq<string>)
    requires NormalForm(abs, st) && |st| > Ups(st)
    ensures var rest := st[..|st| - 1];
            NormalForm(abs, rest) && Ups(rest) == Ups(st) && rest[..Ups(rest)] == st[..Ups(st)]
  {
    var rest := st[..|st| - 1];
    UpsIs(rest, Ups(st));
    assert rest[..Ups(rest)] == st[..Ups(st)];
  }

  /** Where the component after the one at r starts. */
  function NextAt(src: string, r: nat): (r': nat)
    requires r <= |src|
    ensures r' <= |src|
  {
    var e := r + ComRun(src[r..]);
    e + SepRun(src[e..])
  }

  /** The component at r, and what it does to the stack. */
  lemma NextComponent(src: string, r: nat, abs: bool, st: seq<string>)
    requires r < |src| && src[r] != '/'
    ensures var c := ComRun(src[r..]);
            var com, r' := src[r..r + c], NextAt(src, r);
            && 0 < c <= |src| - r && Name(com)
            && r + c <= r' && (r' < |src| ==> src[r'] != '/' && r + c < r')
            && PushAll(abs, st, Comps(src[r..])) == PushAll(abs, Push(abs, st, com), Comps(src[r'..]))
  {
    hide Push, PushAll, Comps, ComRun, SepRun, Name;
    var s := src[r..];
    var c := ComRun(s);
    CompsStep(s);
    var e := r + c;
    Within(src, r, c);
    var k := SepRun(src[e..]);
    Later(src, e, k);
    assert e < |src| ==> src[e] == src[e..][0];
    PushFirst(abs, st, src[r..e], Comps(src[e + k..]));
  }

  lemma PushFirst(abs: bool, st: seq<string>, com: string, rest: seq<string>)
    ensures PushAll(abs, st, [com] + rest) == PushAll(abs, Push(abs, st, com), rest)
  {
    assert ([com] + rest)[1..] == rest;
  }

  lemma Later(s: string, e: nat, k: nat)
    requires e + k <= |s|
    ensures s[e..][k..] == s[e + k..] && (e + k < |s| ==> s[e..][k] == s[e + k])
  {
  }

  method PopLast(out: array<char>, ghost abs: bool, ghost st: seq<string>, base: nat, w0: nat) returns (w: nat)
    requires w0 <= out.Length && NormalForm(abs, st) && |st| > Ups(st)
    requires out[..w0] == Text(abs, st) && base == UpsText(abs, st)
    ensures w <= w0 && out[..w] == Text(abs, st[..|st| - 1])
  {
    hide NormalForm, Text, UpsText, Ups;
    ghost var cut := LastPart(abs, st);
    ghost var was := out[..w0];
    w := w0;
    while w > base && out[w - 1] != '/'
      invariant cut <= w <= w0
    {
      assert was[w - 1] == out[w - 1];
      w := w - 1;
    }
    assert w > 0 ==> was[w - 1] == out[w - 1];
    if w > base {
      w := w - 1;
    }
    assert out[..w] == was[..w];
  }

  /** Where the last component of the text begins. */
  ghost function LastPart(abs: bool, st: seq<string>): (cut: nat)
    requires NormalForm(abs, st) && |st| > Ups(st)
    ensures var t, rest := Text(abs, st), Text(abs, st[..|st| - 1]);
            && cut <= |t| && (forall k | cut <= k < |t| :: t[k] != '/')
            && UpsText(abs, st) <= cut && (cut > UpsText(abs, st) ==> t[cut - 1] == '/' && t[..cut - 1] == rest)
            && (cut == UpsText(abs, st) ==> t[..cut] == rest)
  {
    TopOfText(abs, st);
    var t, top := Text(abs, st), st[|st| - 1];
    LastPartIs(t, Text(abs, st[..|st| - 1]), if |st| == 1 then "" else "/", top);
    |t| - |top|
  }

  lemma LastPartIs(t: string, rest: string, sep: string, top: string)
    requires t == rest + sep + top && (sep == "" || sep == "/") && '/' !in top
    ensures var cut := |t| - |top|;
            && (forall k | cut <= k < |t| :: t[k] != '/')
            && (sep == "" ==> t[..cut] == rest) && (sep == "/" ==> t[cut - 1] == '/' && t[..cut - 1] == rest)
  {
    forall k | |t| - |top| <= k < |t|
      ensures t[k] != '/'
    {
      assert t[k] == top[k - (|t| - |top|)];
    }
  }

  /** Appends a ".." that cannot pop anything. */
  method AppendUp(out: array<char>, ghost st: seq<string>, w0: nat) returns (w: nat)
    requires w0 + 3 <= out.Length && out[..w0] == Text(false, st) && (w0 > 0 <==> st != [])
    modifies out
    ensures w == w0 + (if st == [] then 2 else 3)
    ensures out[..w] == Text(false, st + [".."])
    ensures forall k | w <= k < out.Length :: out[k] == old(out[k])
  {
    TextSnoc(false, st, "..");
    w := w0;
    if w > 0 {
      out[w] := '/';
      w := w + 1;
    }
    out[w] := '.';
    w := w + 1;
    out[w] := '.';
    w := w + 1;
  }

  /** Appends the component p[r..r + c]. */
  method AppendName(out: array<char>, ghost abs: bool, ghost st: seq<string>, ro: nat, w0: nat,
                    p: array<char>, r: nat, c: nat) returns (w: nat)
    requires r + c <= p.Length && w0 + 1 + c <= out.Length
    requires out[..w0] == Text(abs, st) && (w0 > ro <==> st != [])
    requires out == p ==> w0 + (if st == [] then 0 else 1) <= r
    modifies out
    ensures w == w0 + (if st == [] then 0 else 1) + c
    ensures out[..w] == Text(abs, st + [old(p[r..r + c])])
    ensures forall k | w <= k < out.Length :: out[k] == old(out[k])
  {
    hide Text;
    ghost var com := p[r..r + c];
    TextSnoc(abs, st, com);
    w := w0;
    if w > ro {
      out[w] := '/';
      w := w + 1;
    }
    assert p[r..r + c] == com;
    ByteCopy(out, w, c, p, r);
    w := w + c;
  }

  /** One component: what the buffer holds goes from the text of st to that of the stack after it. */
  method ApplyComponent(out: array<char>, ghost abs: bool, ghost st: seq<string>, ro: nat, base0: nat, w0: nat,
                        p: array<char>, r: nat, c: nat) returns (w: nat, base: nat)
    requires 0 < c && r + c <= p.Length && r + c + 2 <= out.Length
    requires NormalForm(abs, st) && Name(p[r..r + c]) && ro == (if abs then 1 else 0)
    requires w0 <= r && out[..w0] == Text(abs, st) && base0 == UpsText(abs, st) && (st != [] ==> w0 < r)
    modifies out
    ensures w <= r + c && forall k | w <= k < out.Length && w0 <= k :: out[k] == old(out[k])
    ensures var st' := Push(abs, st, old(p[r..r + c]));
            out[..w] == Text(abs, st') && base == UpsText(abs, st')
  {
    hide Text;
    ghost var com := p[r..r + c];
    PushNormal(abs, st, com);
    TopOfText(abs, st);
    assert c == 1 && p[r] == '.' <==> com == ".";
    assert c == 2 && p[r] == '.' && p[r + 1] == '.' <==> com == "..";
    w, base := w0, base0;
    if c == 1 && p[r] == '.' {
    } else if c == 2 && p[r] == '.' && p[r + 1] == '.' {
      if w > base {
        w := PopLast(out, abs, st, base, w);
      } else if ro == 0 {
        w := AppendUp(out, st, w);
        base := w;
        assert (st + [".."])[..|st| + 1] == st + [".."];
      }
    } else {
      w := AppendName(out, abs, st, ro, w, p, r, c);
      assert (st + [com])[..Ups(st)] == st[..Ups(st)];
    }
  }

  /** The loop's state: w bytes of out hold the stack st, and p[r..n] is still unread. */
  ghost predicate Canonizing(done: string, unread: string, src: string, abs: bool, st: seq<string>,
                             base: nat, w: nat, r: nat)
  {
    && w <= r <= |src|
    && done == Text(abs, st) && NormalForm(abs, st) && base == UpsText(abs, st)
    && unread == src[r..]
    && (r < |src| ==> src[r] != '/' && (st != [] ==> w < r))
    && PushAll(abs, st, Comps(src[r..])) == PushAll(abs, [], Comps(src))
  }

  lemma Slices(p: array<char>, n: nat, src: string, r: nat, c: nat)
    requires r + c <= n <= p.Length && n == |src| && p[r..n] == src[r..]
    ensures p[r..r + c] == src[r..r + c] && p[r + c..n] == src[r + c..]
  {
    assert p[r..r + c] == p[r..n][..c] && p[r + c..n] == p[r..n][c..];
    assert src[r..r + c] == src[r..][..c] && src[r + c..] == src[r..][c..];
  }

  method CanonStep(out: array<char>, p: array<char>, n: nat, ghost src: string, ghost abs: bool,
                   ghost st0: seq<string>, ro: nat, base0: nat, w0: nat, r0: nat)
    returns (ghost st: seq<string>, base: nat, w: nat, r: nat)
    requires n == |src| <= p.Length && n + 2 <= out.Length && ro == (if abs then 1 else 0)
    requires w0 <= r0 < n
    requires Canonizing(out[..w0], p[r0..n], src, abs, st0, base0, w0, r0)
    modifies out
    ensures w <= r && r0 < r <= n
    ensures Canonizing(out[..w], p[r..n], src, abs, st, base, w, r)
    ensures forall k | n <= k < out.Length :: out[k] == old(out[k])
  {
    hide Text, NormalForm, UpsText, PushAll, Comps, Push, Join, Ups, Proper, ComRun, SepRun;
    var c := ComRun(p[r0..n]);
    ghost var com := src[r0..r0 + c];
    NextComponent(src, r0, abs, st0);
    PushNormal(abs, st0, com);
    Slices(p, n, src, r0, c);
    ghost var before := p[..];
    w, base := ApplyComponent(out, abs, st0, ro, base0, w0, p, r0, c);
    st := Push(abs, st0, com);
    r := r0 + c;
    if out == p {
      assert forall k | r <= k < n :: p[k] == before[k];
    } else {
      assert p[..] == before;
    }
    SameTail(before, p[..], r, n);
    assert p[r..n] == src[r..];
    r := r + SepRun(p[r..n]);
    PastSeps(p[..], src, r0 + c, r, n);
  }

  lemma PastSeps(s: string, src: string, a: nat, r: nat, n: nat)
    requires a <= r <= n <= |s| && n == |src| && s[a..n] == src[a..]
    ensures s[r..n] == src[r..]
  {
    TailOfTail(s, a, r, n);
    TailOfTail(src, a, r, n);
  }

  lemma SameTail(s: string, t: string, r: nat, n: nat)
    requires r <= n <= |s| == |t| && forall k | r <= k < n :: s[k] == t[k]
    ensures s[r..n] == t[r..n]
  {
  }

  lemma TailOfTail(s: string, a: nat, r: nat, n: nat)
    requires a <= r <= n <= |s|
    ensures s[a..n][r - a..] == s[r..n]
  {
  }

  /** The root of the result, at most one separator, and the first component. */
  method CopyRoot(out: array<char>, p: array<char>, n: nat) returns (ro: nat, r: nat)
    requires n <= p.Length && n + 2 <= out.Length
    modifies out
    ensures var src := old(p[..n]);
            && ro <= r <= n && ro == (if Rooted(src) then 1 else 0)
            && Canonizing(out[..ro], p[r..n], src, Rooted(src), [], ro, ro, r)
    ensures forall k | n <= k < out.Length :: out[k] == old(out[k])
  {
    hide NormalForm, PushAll, Comps, SepRun;
    ghost var src := p[..n];
    CompsSkip(src);
    CopyRootState(src);
    var root := SepRun(p[..n]);
    ro := if root > 1 then 1 else root;
    if out != p {
      ByteCopy(out, 0, ro, p, 0);
    }
    r := root + SepRun(p[root..n]);
    assert p[root..n] == src[root..];
    assert out[..ro] == src[..ro];
  }

  lemma CopyRootState(src: string)
    ensures var root := SepRun(src);
            var ro := if root > 1 then 1 else root;
            && SepRun(src[root..]) == 0
            && Canonizing(src[..ro], src[root..], src, Rooted(src), [], ro, ro, root)
  {
    CompsSkip(src);
    assert Text(Rooted(src), []) == src[..if SepRun(src) > 1 then 1 else SepRun(src)];
  }

  lemma Finished(done: string, unread: string, src: string, st: seq<string>, base: nat, w: nat)
    requires Canonizing(done, unread, src, Rooted(src), st, base, w, |src|) && w == |done|
    ensures Canon(src) == if w == 0 then "." else done
  {
    assert src[|src|..] == "" && PushAll(Rooted(src), st, []) == st;
  }

  /** path_canon: nothing is written unless cap >= n + 2; out may be p. */
  method PathCanon(out: array<char>, cap: nat, p: array<char>, n: nat) returns (len: nat)
    requires n <= p.Length && cap <= out.Length
    modifies out
    ensures cap < n + 2 ==> len == n + 1 && out[..] == old(out[..])
    ensures cap >= n + 2 ==> len <= n + 1 && out[len] == '\0' && out[..len] == Canon(old(p[..n]))
    ensures cap >= n + 2 ==> out[n + 2..] == old(out[n + 2..])
  {
    hide *;
    if cap < n + 2 {
      return n + 1;
    }
    ghost var src := p[..n];
    ghost var abs := Rooted(src);
    ghost var st: seq<string> := [];
    var ro, r := CopyRoot(out, p, n);
    var w: nat, base: nat := ro, ro;
    while r < n
      invariant w <= r <= n && ro == (if abs then 1 else 0)
      invariant Canonizing(out[..w], p[r..n], src, abs, st, base, w, r)
      invariant forall k | n <= k < out.Length :: out[k] == old(out[k])
    {
      st, base, w, r := CanonStep(out, p, n, src, abs, st, ro, base, w, r);
    }
    Finished(out[..w], p[r..n], src, st, base, w);
    if w == 0 {
      out[w] := '.';
      w := w + 1;
      assert out[..w] == ".";
    }
    out[w] := '\0';
    return w;
  }
}
