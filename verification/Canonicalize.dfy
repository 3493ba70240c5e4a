/** path_canonicalize: the canonical form, with symbolic links followed on request. */
module Canonicalize {
  import opened Paths
  import opened PathScan
  import C = Canonize

  /** What lstat and readlink say about a path text; it does not change meanwhile. */
  datatype Link = NotLink | Target(text: string) | Unreadable
  type World = string -> Link

  const MAXSYMLINKS := 40

  datatype Resolved = Done(abs: bool, st: seq<string>, links: nat) | TooManyLinks | ReadError

  /** Following links component by component: the stack so far, what is still to do, and the number
      of links followed. */
  function Resolve(w: World, abs: bool, st: seq<string>, cs: seq<string>, links: nat): Resolved
    decreases MAXSYMLINKS + 1 - links, |cs|
  {
    if cs == [] then
      Done(abs, st, links)
    else if cs[0] == "." || cs[0] == ".." then
      Resolve(w, abs, Push(abs, st, cs[0]), cs[1..], links)
    else
      var link := w(Text(abs, st + [cs[0]]));
      if link.NotLink? then
        Resolve(w, abs, st + [cs[0]], cs[1..], links)
      else if links >= MAXSYMLINKS then
        TooManyLinks
      else if link.Unreadable? then
        ReadError
      else if Rooted(link.text + "/") then
        Resolve(w, true, [], Comps(link.text) + cs[1..], links + 1)
      else
        Resolve(w, abs, st, Comps(link.text) + cs[1..], links + 1)
  }

  function RComRun(s: string): (k: nat)
    ensures k <= |s| && (forall t | |s| - k <= t < |s| :: s[t] != '/') && (k < |s| ==> s[|s| - 1 - k] == '/')
  {
    if s == "" || s[|s| - 1] == '/' then 0 else 1 + RComRun(s[..|s| - 1])
  }

  function RSepRun(s: string): (k: nat)
    ensures k <= |s| && (forall t | |s| - k <= t < |s| :: s[t] == '/') && (k < |s| ==> s[|s| - 1 - k] != '/')
  {
    if s == "" || s[|s| - 1] != '/' then 0 else 1 + RSepRun(s[..|s| - 1])
  }

  /** pop: drops the last component of sa and the separators before it. */
  function Pop(sa: string, root: nat): string
    requires root <= |sa|
  {
    var k := |sa| - RComRun(sa[root..]);
    if k > root then sa[..k - RSepRun(sa[root..k])] else sa[..k]
  }

  predicate NoLinks(w: World, abs: bool, st: seq<string>) {
    forall k | 0 < k <= |st| && st[k - 1] != ".." :: w(Text(abs, st[..k])).NotLink?
  }

  /** A successful result is a normal stack none of whose prefixes is a link. */
  lemma {:induction false} ResolveIsPhysical(w: World, abs: bool, st: seq<string>, cs: seq<string>, links: nat)
    requires NormalForm(abs, st) && Names(cs) && NoLinks(w, abs, st) && links <= MAXSYMLINKS
    ensures var r := Resolve(w, abs, st, cs, links);
            r.Done? ==> NormalForm(r.abs, r.st) && NoLinks(w, r.abs, r.st) && links <= r.links <= MAXSYMLINKS
    decreases MAXSYMLINKS + 1 - links, |cs|
  {
    hide Comps, Join, Ups;
    if cs != [] {
      var c := cs[0];
      PushNormal(abs, st, c);
      if c == "." || c == ".." {
        NoLinksPush(w, abs, st, c);
        ResolveIsPhysical(w, abs, Push(abs, st, c), cs[1..], links);
      } else {
        var link := w(Text(abs, st + [c]));
        if link.NotLink? {
          NoLinksSnoc(w, abs, st, c);
          ResolveIsPhysical(w, abs, st + [c], cs[1..], links);
        } else if links < MAXSYMLINKS && link.Target? {
          CompsAreNames(link.text);
          EmptyIsNormal();
          if Rooted(link.text + "/") {
            ResolveIsPhysical(w, true, [], Comps(link.text) + cs[1..], links + 1);
          } else {
            ResolveIsPhysical(w, abs, st, Comps(link.text) + cs[1..], links + 1);
          }
        }
      }
    }
  }

  lemma EmptyIsNormal()
    ensures NormalForm(true, []) && NormalForm(false, [])
  {
  }

  lemma NoLinksSnoc(w: World, abs: bool, st: seq<string>, c: string)
    requires NoLinks(w, abs, st) && (c == ".." || w(Text(abs, st + [c])).NotLink?)
    ensures NoLinks(w, abs, st + [c])
  {
    var r := st + [c];
    forall k | 0 < k <= |r| && r[k - 1] != ".." ensures w(Text(abs, r[..k])).NotLink? {
      if k <= |st| {
        assert r[..k] == st[..k];
      } else {
        assert r[..k] == r;
      }
    }
  }

  lemma NoLinksPush(w: World, abs: bool, st: seq<string>, c: string)
    requires NoLinks(w, abs, st) && (c == "." || c == "..")
    ensures NoLinks(w, abs, Push(abs, st, c))
  {
    var r := Push(abs, st, c);
    if r == st + [".."] {
      NoLinksSnoc(w, abs, st, "..");
    } else {
      forall k | 0 < k <= |r| ensures r[..k] == st[..k] {
      }
    }
  }

  /** Without a link on the way the result is the lexical one. */
  lemma {:induction false} ResolveIsLexical(w: World, abs: bool, st: seq<string>, cs: seq<string>, links: nat)
    requires var r := Resolve(w, abs, st, cs, links);
             (forall t :: w(t).NotLink?) || (r.Done? && r.links == links)
    requires Names(cs) && NormalForm(abs, st) && links <= MAXSYMLINKS && NoLinks(w, abs, st)
    ensures Resolve(w, abs, st, cs, links) == Done(abs, PushAll(abs, st, cs), links)
    decreases |cs|
  {
    hide Comps, Join, Ups, NormalForm, Text;
    if cs != [] {
      var c := cs[0];
      PushNormal(abs, st, c);
      if c == "." || c == ".." {
        NoLinksPush(w, abs, st, c);
        ResolveIsLexical(w, abs, Push(abs, st, c), cs[1..], links);
      } else {
        var link := w(Text(abs, st + [c]));
        if link.NotLink? {
          NoLinksSnoc(w, abs, st, c);
          ResolveIsLexical(w, abs, st + [c], cs[1..], links);
        } else if links < MAXSYMLINKS && link.Target? {
          CompsAreNames(link.text);
          EmptyIsNormal();
          var ds := Comps(link.text) + cs[1..];
          ResolveIsPhysical(w, true, [], ds, links + 1);
          ResolveIsPhysical(w, abs, st, ds, links + 1);
        }
      }
    }
  }

  /** A result is resolved already: doing it again follows no link and changes nothing. */
  lemma {:induction false} ResolvedStays(w: World, abs: bool, st: seq<string>, k: nat)
    requires NormalForm(abs, st) && NoLinks(w, abs, st) && k <= |st|
    ensures Resolve(w, abs, st[..k], st[k..], 0) == Done(abs, st, 0)
    decreases |st| - k
  {
    if k < |st| {
      assert st[k..][1..] == st[k + 1..];
      assert st[..k] + [st[k]] == st[..k + 1];
      assert st[k] == ".." ==> Push(abs, st[..k], "..") == st[..k + 1];
      ResolvedStays(w, abs, st, k + 1);
    } else {
      assert st[..k] == st;
    }
  }

  /** The promise of path_canonicalize(path, sa, 0): at most 40 links are followed, the result is
      canonical and none of its components is a link. */
  lemma PhysicalResult(w: World, path: string)
    ensures var r := Resolve(w, Rooted(path), [], Comps(path), 0);
            r.Done? ==>
              && r.links <= MAXSYMLINKS
              && NoLinks(w, r.abs, r.st)
              && Canon(Render(r.abs, r.st)) == Render(r.abs, r.st)
              && Resolve(w, r.abs, [], r.st, 0) == Done(r.abs, r.st, 0)
              && (r.links == 0 ==> Render(r.abs, r.st) == Canon(path))
  {
    hide Resolve, NoLinks, NormalForm, Render, PushAll;
    var r := Resolve(w, Rooted(path), [], Comps(path), 0);
    CompsAreNames(path);
    EmptyIsNormal();
    NoLinksEmpty(w, Rooted(path));
    ResolveIsPhysical(w, Rooted(path), [], Comps(path), 0);
    if r.Done? {
      CanonOfRender(r.abs, r.st);
      ResolvedStays(w, r.abs, r.st, 0);
      assert r.st[..0] == [] && r.st[0..] == r.st;
      if r.links == 0 {
        ResolveIsLexical(w, Rooted(path), [], Comps(path), 0);
      }
    }
  }

  lemma NoLinksEmpty(w: World, abs: bool)
    ensures NoLinks(w, abs, [])
  {
  }

  /** Going on from st with cs meets exactly k links, all of them readable, and comes to st'. */
  ghost predicate EndsAt(w: World, abs: bool, st: seq<string>, cs: seq<string>, k: nat, abs': bool, st': seq<string>)
    decreases k, |cs|
  {
    if cs == [] then
      k == 0 && abs' == abs && st' == st
    else if cs[0] == "." || cs[0] == ".." then
      EndsAt(w, abs, Push(abs, st, cs[0]), cs[1..], k, abs', st')
    else match w(Text(abs, st + [cs[0]]))
      case NotLink => EndsAt(w, abs, st + [cs[0]], cs[1..], k, abs', st')
      case Target(t) =>
        k > 0 && EndsAt(w, abs || t == "" || Rooted(t), if t == "" || Rooted(t) then [] else st, Comps(t) + cs[1..], k - 1, abs', st')
      case Unreadable => false
  }

  /** Going on from st with cs meets k links or more; those before the kth are readable. */
  ghost predicate Meets(w: World, abs: bool, st: seq<string>, cs: seq<string>, k: nat)
    requires k > 0
    decreases k, |cs|
  {
    if cs == [] then
      false
    else if cs[0] == "." || cs[0] == ".." then
      Meets(w, abs, Push(abs, st, cs[0]), cs[1..], k)
    else match w(Text(abs, st + [cs[0]]))
      case NotLink => Meets(w, abs, st + [cs[0]], cs[1..], k)
      case Target(t) =>
        k == 1 || Meets(w, abs || t == "" || Rooted(t), if t == "" || Rooted(t) then [] else st, Comps(t) + cs[1..], k - 1)
      case Unreadable => k == 1
  }

  /** With some links followed already, those up to the 40th are followed. */
  lemma {:induction false} UpToForty(w: World, abs: bool, st: seq<string>, cs: seq<string>, k: nat, abs': bool, st': seq<string>, links: nat)
    requires EndsAt(w, abs, st, cs, k, abs', st') && links + k <= 40
    ensures Resolve(w, abs, st, cs, links) == Done(abs', st', links + k)
    decreases k, |cs|
  {
    hide Comps, Push, Text;
    if cs != [] {
      if cs[0] == "." || cs[0] == ".." {
        UpToForty(w, abs, Push(abs, st, cs[0]), cs[1..], k, abs', st', links);
      } else {
        match w(Text(abs, st + [cs[0]]))
        case NotLink => UpToForty(w, abs, st + [cs[0]], cs[1..], k, abs', st', links);
        case Target(t) =>
          var root := t == "" || Rooted(t);
          UpToForty(w, abs || root, if root then [] else st, Comps(t) + cs[1..], k - 1, abs', st', links + 1);
      }
    }
  }

  /** ... and the 41st is not. */
  lemma {:induction false} NotBeyond(w: World, abs: bool, st: seq<string>, cs: seq<string>, k: nat, links: nat)
    requires k > 0 && Meets(w, abs, st, cs, k) && links + k == 41
    ensures Resolve(w, abs, st, cs, links) == TooManyLinks
    decreases k, |cs|
  {
    hide Comps, Push, Text;
    if cs[0] == "." || cs[0] == ".." {
      NotBeyond(w, abs, Push(abs, st, cs[0]), cs[1..], k, links);
    } else {
      match w(Text(abs, st + [cs[0]]))
      case NotLink => NotBeyond(w, abs, st + [cs[0]], cs[1..], k, links);
      case Target(t) =>
        var root := t == "" || Rooted(t);
        if k > 1 {
          NotBeyond(w, abs || root, if root then [] else st, Comps(t) + cs[1..], k - 1, links + 1);
        }
      case Unreadable =>
    }
  }

  /** path_canonicalize(path, sa, 0) follows 40 links: a path that ends after at most 40, all readable,
      is resolved to where it ends, and one that meets a 41st is given up on. */
  lemma FortyLinks(w: World, path: string)
    ensures forall k: nat, abs, st | k <= 40 && EndsAt(w, Rooted(path), [], Comps(path), k, abs, st) ::
              Resolve(w, Rooted(path), [], Comps(path), 0) == Done(abs, st, k)
    ensures Meets(w, Rooted(path), [], Comps(path), 41) ==> Resolve(w, Rooted(path), [], Comps(path), 0) == TooManyLinks
  {
    hide EndsAt, Meets, Resolve, Comps;
    forall k: nat, abs, st | k <= 40 && EndsAt(w, Rooted(path), [], Comps(path), k, abs, st)
      ensures Resolve(w, Rooted(path), [], Comps(path), 0) == Done(abs, st, k)
    {
      UpToForty(w, Rooted(path), [], Comps(path), k, abs, st, 0);
    }
    if Meets(w, Rooted(path), [], Comps(path), 41) {
      NotBeyond(w, Rooted(path), [], Comps(path), 41, 0);
    }
  }

  /** A link to itself is given up on. */
  lemma {:induction false} SelfLinkLoops(w: World, links: nat)
    requires w("a") == Target("a") && links <= MAXSYMLINKS
    ensures Resolve(w, false, [], ["a"], links) == TooManyLinks
    decreases MAXSYMLINKS - links
  {
    assert Text(false, [] + ["a"]) == "a";
    if links < MAXSYMLINKS {
      CompsOfName("a");
      assert Comps("a") + ["a"][1..] == ["a"];
      SelfLinkLoops(w, links + 1);
    }
  }

  lemma {:induction false} RComRunIs(s: string, k: nat)
    requires k <= |s| && (forall t | |s| - k <= t < |s| :: s[t] != '/') && (k < |s| ==> s[|s| - 1 - k] == '/')
    ensures RComRun(s) == k
  {
    if k > 0 {
      RComRunIs(s[..|s| - 1], k - 1);
    }
  }

  lemma RComRunSuffix(a: string, c: string)
    requires Name(c) && (a == "" || a[|a| - 1] == '/')
    ensures RComRun(a + c) == |c| && (a + c)[|a|..] == c
  {
    forall t | |a| <= t < |a + c| ensures (a + c)[t] != '/' {
      assert c[t - |a|] in c;
    }
    RComRunIs(a + c, |c|);
  }

  lemma PopString(root: string, body: string, top: string)
    requires Name(top) && (body == "" || body[|body| - 1] != '/')
    ensures var sep := if body == "" then "" else "/";
            Pop(root + ((body + sep) + top), |root|) == root + body
  {
    hide RComRun, RSepRun;
    var sep := if body == "" then "" else "/";
    var tail := (body + sep) + top;
    var sa := root + tail;
    var k := |sa| - |top|;
    RComRunSuffix(body + sep, top);
    assert sa[|root|..] == tail;
    if body != "" {
      OneSep(body);
      assert sa[|root|..k] == body + "/";
      assert sa[..k - 1] == root + body;
    } else {
      assert sa[..k] == root + body;
    }
  }

  /** The last component in the text, and what pop leaves. */
  lemma TopOf(abs: bool, st: seq<string>)
    requires Names(st) && st != []
    ensures var sa, root, top := Text(abs, st), if abs then 1 else 0, st[|st| - 1];
            && |sa| > root
            && RComRun(sa) == |top| && sa[|sa| - |top|..] == top
            && Pop(sa, root) == Text(abs, st[..|st| - 1])
  {
    hide RComRun, RSepRun, Comps, Pop;
    var init, top := st[..|st| - 1], st[|st| - 1];
    var root := if abs then "/" else "";
    assert st == init + [top] && Name(top);
    C.TextSnoc(abs, init, top);
    CompsOfJoin(init);
    var sep := if init == [] then "" else "/";
    assert Text(abs, init) == root + Join(init) && (init == [] ==> Join(init) == "");
    hide Join;
    var sa := Text(abs, st);
    assert sa == (root + Join(init) + sep) + top == root + ((Join(init) + sep) + top);
    RComRunSuffix(root + Join(init) + sep, top);
    PopString(root, Join(init), top);
  }

  lemma OneSep(s: string)
    requires s != "" && s[|s| - 1] != '/'
    ensures RSepRun(s + "/") == 1
  {
    assert (s + "/")[..|s|] == s;
  }

  /** What is left of rest after the component at pos, and the new rest once a link is followed. */
  lemma RestAfterLink(text: string, rest: string, pos: nat)
    requires pos <= |rest| && (pos == |rest| || rest[pos] == '/')
    ensures Comps(text + "/" + rest[pos..]) == Comps(text) + Comps(rest[pos..])
    ensures Rooted(text + "/" + rest[pos..]) == Rooted(text + "/")
  {
    hide Comps;
    CompsConcat(text, "/" + rest[pos..]);
    assert text + "/" + rest[pos..] == text + ("/" + rest[pos..]);
    assert ("/" + rest[pos..])[1..] == rest[pos..];
    SlashComps(rest[pos..]);
  }

  ghost function Seen(w: World, symbolic: bool): World {
    if symbolic then _ => NotLink else w
  }

  /** The loop's state: sa holds the text of st, and Comps(rest[pos..]) is still to be done. */
  ghost predicate Going(v: World, path: string, sa: string, rest: string, pos: nat, abs: bool, st: seq<string>,
                        links: nat)
  {
    && pos <= |rest| && links <= MAXSYMLINKS
    && sa == Text(abs, st) && NormalForm(abs, st)
    && Resolve(v, abs, st, Comps(rest[pos..]), links) == Resolve(v, Rooted(path), [], Comps(path), 0)
  }

  /** restart: the root of rest, at most one separator, starts the result over. */
  method Restart(rest: string) returns (sa: string, root: nat, pos: nat)
    ensures sa == Text(Rooted(rest), []) && root == (if Rooted(rest) then 1 else 0)
    ensures pos <= |rest| && Comps(rest[pos..]) == Comps(rest)
  {
    root := SepRun(rest);
    sa := rest[..root];
    if root > 1 {
      root := 1;
      sa := sa[..1];
    }
    pos := root;
    assert root == 0 ==> rest[pos..] == rest;
  }

  /** The component c of rest, before pos', is applied; or it is a link, and what then remains. */
  lemma NextStep(v: World, path: string, sa: string, rest: string, pos: nat, abs: bool, st: seq<string>, links: nat,
                 c: string, pos': nat)
    requires Going(v, path, sa, rest, pos, abs, st, links) && pos' <= |rest|
    requires Name(c) && Comps(rest[pos..]) == [c] + Comps(rest[pos'..])
    ensures sa == Text(abs, st) && NormalForm(abs, st)
    ensures c == "." || c == ".." || v(Text(abs, st + [c])).NotLink? ==>
              var st' := Push(abs, st, c); Going(v, path, Text(abs, st'), rest, pos', abs, st', links)
    ensures c != "." && c != ".." && !v(Text(abs, st + [c])).NotLink? ==>
              var link := v(Text(abs, st + [c]));
              Resolve(v, Rooted(path), [], Comps(path), 0)
              == if links >= MAXSYMLINKS then TooManyLinks
                 else if link.Unreadable? then ReadError
                 else if Rooted(link.text + "/") then Resolve(v, true, [], Comps(link.text) + Comps(rest[pos'..]), links + 1)
                 else Resolve(v, abs, st, Comps(link.text) + Comps(rest[pos'..]), links + 1)
  {
    hide Comps, Text;
    PushNormal(abs, st, c);
    assert Comps(rest[pos..])[1..] == Comps(rest[pos'..]);
  }

  lemma Starts(v: World, path: string, sa: string, pos: nat)
    requires pos <= |path| && sa == Text(Rooted(path), []) && Comps(path[pos..]) == Comps(path)
    ensures Going(v, path, sa, path, pos, Rooted(path), [], 0)
  {
  }

  lemma Skipped(v: World, path: string, sa: string, rest: string, pos: nat, pos': nat, abs: bool, st: seq<string>,
                links: nat)
    requires Going(v, path, sa, rest, pos, abs, st, links)
    requires pos' <= |rest| && Comps(rest[pos..]) == Comps(rest[pos'..])
    ensures Going(v, path, sa, rest, pos', abs, st, links)
  {
  }

  lemma Ends(v: World, path: string, sa: string, rest: string, abs: bool, st: seq<string>, links: nat)
    requires Going(v, path, sa, rest, |rest|, abs, st, links)
    ensures Resolve(v, Rooted(path), [], Comps(path), 0) == Done(abs, st, links)
    ensures Render(abs, st) == if sa == "" then "." else sa
  {
    AtEnd(rest);
  }

  /** With symbolic set no link is seen. */
  lemma LexicalWhenSymbolic(w: World, path: string)
    ensures Resolve(Seen(w, true), Rooted(path), [], Comps(path), 0)
            == Done(Rooted(path), PushAll(Rooted(path), [], Comps(path)), 0)
  {
    CompsAreNames(path);
    EmptyIsNormal();
    NoLinksEmpty(Seen(w, true), Rooted(path));
    ResolveIsLexical(Seen(w, true), Rooted(path), [], Comps(path), 0);
  }

  /** ".." on the result so far. */
  method UpOne(sa0: string, root: nat, ghost abs: bool, ghost st: seq<string>) returns (sa: string)
    requires sa0 == Text(abs, st) && NormalForm(abs, st) && root == (if abs then 1 else 0)
    ensures sa == Text(abs, Push(abs, st, ".."))
  {
    hide Join, RComRun, Pop, Ups;
    sa := sa0;
    if st != [] {
      NormalNames(abs, st);
      TopOf(abs, st);
      assert st[|st| - 1] == sa[|sa| - RComRun(sa)..];
    } else {
      assert Text(abs, []) == if abs then "/" else "" by { JoinNone(); }
    }
    C.TextSnoc(abs, st, "..");
    var j := RComRun(sa);
    if |sa| > root && sa[|sa| - j..] != ".." {
      sa := Pop(sa, root);
    } else if root == 0 {
      sa := sa + (if |sa| > 0 then "/" else "") + "..";
    }
  }

  lemma JoinNone()
    ensures Join([]) == ""
  {
  }

  lemma AppendText(abs: bool, st: seq<string>, root: nat, c: string)
    requires NormalForm(abs, st) && root == (if abs then 1 else 0)
    ensures |Text(abs, st)| > root <==> st != []
    ensures Text(abs, st + [c]) == Text(abs, st) + (if |Text(abs, st)| > root then "/" else "") + c
  {
    C.TopOfText(abs, st);
    C.TextSnoc(abs, st, c);
  }

  /** path_canonicalize; 0 on error, else one more than the number of links followed. */
  method PathCanonicalize(w: World, path: string, symbolic: bool) returns (ret: nat, sa: string)
    ensures var r := Resolve(Seen(w, symbolic), Rooted(path), [], Comps(path), 0);
            if r.Done? then ret == 1 + r.links && sa == Render(r.abs, r.st) else ret == 0
    ensures symbolic ==> ret == 1 && sa == Canon(path)
  {
    hide Resolve, Comps, Going, Text, PushAll, Push, NormalForm, ComEnd, SepsEnd, Pop, Join, Render;
    ghost var v := Seen(w, symbolic);
    if symbolic {
      LexicalWhenSymbolic(w, path);
    }
    var rest, links := path, 0;
    var root: nat, pos: nat;
    sa, root, pos := Restart(rest);
    ghost var abs, st: seq<string> := Rooted(path), [];
    Starts(v, path, sa, pos);
    while pos < |rest|
      invariant pos <= |rest| && links <= MAXSYMLINKS && root == (if abs then 1 else 0)
      invariant Going(v, path, sa, rest, pos, abs, st, links)
      decreases MAXSYMLINKS - links, |rest| - pos
    {
      SkipSeps(rest, pos);
      Skipped(v, path, sa, rest, pos, SepsEnd(rest, pos), abs, st, links);
      pos := SepsEnd(rest, pos);
      if pos == |rest| {
        break;
      }
      ComponentAt(rest, pos);
      var c := rest[pos..ComEnd(rest, pos)];
      NextStep(v, path, sa, rest, pos, abs, st, links, c, ComEnd(rest, pos));
      pos := ComEnd(rest, pos);
      if c == "." {
        DotStays(abs, st);
        continue;
      }
      if c == ".." {
        sa := UpOne(sa, root, abs, st);
        st := Push(abs, st, c);
        continue;
      }
      AppendText(abs, st, root, c);
      ghost var st' := st + [c];
      PushName(abs, st, c);
      sa := sa + (if |sa| > root then "/" else "") + c;
      if symbolic || w(sa).NotLink? {
        st := st';
        continue;
      }
      links := links + 1;
      if links > MAXSYMLINKS {
        return 0, sa;
      }
      var link := w(sa);
      if link.Unreadable? {
        return 0, sa;
      }
      PopName(abs, st, c, root);
      sa := Pop(sa, root);
      RestAfterLink(link.text, rest, pos);
      rest, pos := link.text + "/" + rest[pos..], 0;
      assert rest[0..] == rest;
      EmptyIsNormal();
      if Rooted(rest) {
        abs, st := true, [];
        sa, root, pos := Restart(rest);
      }
      Resumed(v, path, sa, rest, pos, abs, st, links);
    }
    Ends(v, path, sa, rest, abs, st, links);
    if |sa| == 0 {
      sa := ".";
    }
    ret := 1 + links;
  }

  lemma DotStays(abs: bool, st: seq<string>)
    ensures Push(abs, st, ".") == st
  {
  }

  lemma PushName(abs: bool, st: seq<string>, c: string)
    requires c != "." && c != ".."
    ensures Push(abs, st, c) == st + [c]
  {
  }

  lemma PopName(abs: bool, st: seq<string>, c: string, root: nat)
    requires NormalForm(abs, st) && Name(c) && root == (if abs then 1 else 0)
    ensures var sa := Text(abs, st + [c]); root <= |sa| && Pop(sa, root) == Text(abs, st)
  {
    hide Pop, Text;
    NormalNames(abs, st);
    TopOf(abs, st + [c]);
    assert (st + [c])[..|st|] == st;
  }

  lemma Resumed(v: World, path: string, sa: string, rest: string, pos: nat, abs: bool, st: seq<string>, links: nat)
    requires pos <= |rest| && links <= MAXSYMLINKS && sa == Text(abs, st) && NormalForm(abs, st)
    requires Resolve(v, abs, st, Comps(rest[pos..]), links) == Resolve(v, Rooted(path), [], Comps(path), 0)
    ensures Going(v, path, sa, rest, pos, abs, st, links)
  {
  }
}
