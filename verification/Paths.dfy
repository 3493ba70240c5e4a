/** Paths as component lists: splitting, lexical normalisation and rendering. */
module Paths {

  /** Length of the run of separators at the start of s. */
  function SepRun(s: string): (k: nat)
    ensures k <= |s| && (forall t | 0 <= t < k :: s[t] == '/') && (k < |s| ==> s[k] != '/')
  {
    if s == "" || s[0] != '/' then 0 else 1 + SepRun(s[1..])
  }

  /** Length of the run of other characters at the start of s. */
  function ComRun(s: string): (k: nat)
    ensures k <= |s| && (forall t | 0 <= t < k :: s[t] != '/') && (k < |s| ==> s[k] == '/')
  {
    if s == "" || s[0] == '/' then 0 else 1 + ComRun(s[1..])
  }

  /** The components of s, empty ones dropped. */
  function Comps(s: string): seq<string>
    decreases |s|
  {
    if s == "" then []
    else if s[0] == '/' then Comps(s[1..])
    else [s[..ComRun(s)]] + Comps(s[ComRun(s)..])
  }

  predicate Rooted(s: string) {
    s != "" && s[0] == '/'
  }

  predicate Name(c: string) {
    c != "" && '/' !in c
  }

  predicate Proper(c: string) {
    Name(c) && c != "." && c != ".."
  }

  /** The effect of one more component on a component stack. */
  function Push(abs: bool, st: seq<string>, c: string): seq<string> {
    if c == "." then st
    else if c == ".." then
      if st != [] && st[|st| - 1] != ".." then st[..|st| - 1]
      else if abs then st
      else st + [".."]
    else st + [c]
  }

  function PushAll(abs: bool, st: seq<string>, cs: seq<string>): seq<string>
    decreases |cs|
  {
    if cs == [] then st else PushAll(abs, Push(abs, st, cs[0]), cs[1..])
  }

  function Join(st: seq<string>): string {
    if st == [] then ""
    else if |st| == 1 then st[0]
    else Join(st[..|st| - 1]) + "/" + st[|st| - 1]
  }

  function Text(abs: bool, st: seq<string>): string {
    (if abs then "/" else "") + Join(st)
  }

  function Render(abs: bool, st: seq<string>): string {
    if Text(abs, st) == "" then "." else Text(abs, st)
  }

  /** The canonical form: the rendering of the normalised component stack. */
  function Canon(s: string): string {
    Render(Rooted(s), PushAll(Rooted(s), [], Comps(s)))
  }

  /** How many ".." the stack starts with. */
  function Ups(st: seq<string>): (u: nat)
    ensures u <= |st| && (forall t | 0 <= t < u :: st[t] == "..") && (u < |st| ==> st[u] != "..")
  {
    if st == [] || st[0] != ".." then 0 else 1 + Ups(st[1..])
  }

  /** What the stack of a canonical path looks like. */
  ghost predicate NormalForm(abs: bool, st: seq<string>) {
    && (abs ==> Ups(st) == 0)
    && forall t | Ups(st) <= t < |st| :: Proper(st[t])
  }

  ghost predicate Names(cs: seq<string>) {
    forall c | c in cs :: Name(c)
  }

  lemma {:induction false} UpsIs(st: seq<string>, u: nat)
    requires u <= |st| && (forall t | 0 <= t < u :: st[t] == "..") && (u < |st| ==> st[u] != "..")
    ensures Ups(st) == u
  {
    if u > 0 {
      UpsIs(st[1..], u - 1);
    }
  }

  lemma {:induction false} CompsAreNames(s: string)
    ensures Names(Comps(s))
    decreases |s|
  {
    if s != "" {
      if s[0] == '/' {
        CompsAreNames(s[1..]);
      } else {
        CompsAreNames(s[ComRun(s)..]);
        assert s[..ComRun(s)][0] == s[0];
      }
    }
  }

  lemma PushNormal(abs: bool, st: seq<string>, c: string)
    requires NormalForm(abs, st) && Name(c)
    ensures NormalForm(abs, Push(abs, st, c))
    ensures c != "." && !(c == ".." && |st| > Ups(st)) && !(c == ".." && abs) ==> Push(abs, st, c) == st + [c]
    ensures Ups(Push(abs, st, c)) == if c == ".." && |st| == Ups(st) && !abs then |st| + 1 else Ups(st)
  {
    var u := Ups(st);
    var r := Push(abs, st, c);
    if c == ".." && st != [] && st[|st| - 1] != ".." {
      UpsIs(r, u);
    } else if c == ".." && !abs {
      assert u == |st|;
      UpsIs(r, u + 1);
    } else if c != "." && c != ".." {
      UpsIs(r, u);
    }
  }

  lemma {:induction false} PushAllNormal(abs: bool, st: seq<string>, cs: seq<string>)
    requires NormalForm(abs, st) && Names(cs)
    ensures NormalForm(abs, PushAll(abs, st, cs))
    decreases |cs|
  {
    if cs != [] {
      PushNormal(abs, st, cs[0]);
      PushAllNormal(abs, Push(abs, st, cs[0]), cs[1..]);
    }
  }

  lemma {:induction false} PushAllConcat(abs: bool, st: seq<string>, cs: seq<string>, ds: seq<string>)
    ensures PushAll(abs, st, cs + ds) == PushAll(abs, PushAll(abs, st, cs), ds)
    decreases |cs|
  {
    if cs == [] {
      assert cs + ds == ds;
    } else {
      assert (cs + ds)[1..] == cs[1..] + ds;
      PushAllConcat(abs, Push(abs, st, cs[0]), cs[1..], ds);
    }
  }

  /** A normal stack is a fixed point of normalisation. */
  lemma {:induction false} PushAllFixed(abs: bool, st: seq<string>, k: nat)
    requires k <= |st| && NormalForm(abs, st)
    ensures PushAll(abs, st[..k], st[k..]) == st
    decreases |st| - k
  {
    if k < |st| {
      assert st[k..][1..] == st[k + 1..];
      assert Push(abs, st[..k], st[k]) == st[..k + 1];
      PushAllFixed(abs, st, k + 1);
    } else {
      assert st[..k] == st;
    }
  }

  lemma FirstComp(s: string)
    requires s != "" && s[0] != '/'
    ensures ComRun(s) > 0 && Comps(s) == [s[..ComRun(s)]] + Comps(s[ComRun(s)..])
  {
  }

  lemma NoComps()
    ensures Comps("") == []
  {
  }

  lemma DropSlash(s: string)
    requires s != "" && s[0] == '/'
    ensures Comps(s) == Comps(s[1..])
  {
  }

  lemma {:induction false} CompsConcat(a: string, b: string)
    requires a == "" || b == "" || a[|a| - 1] == '/' || b[0] == '/'
    ensures Comps(a + b) == Comps(a) + Comps(b)
    decreases |a|
  {
    hide Comps, ComRun;
    NoComps();
    if a == "" {
      assert a + b == b;
    } else if b == "" {
      assert a + b == a;
    } else if a[0] == '/' {
      assert (a + b)[1..] == a[1..] + b;
      CompsConcat(a[1..], b);
      DropSlash(a);
      DropSlash(a + b);
    } else {
      var k := ComRun(a);
      FirstComp(a);
      SameRun(a, b);
      CompsConcat(a[k..], b);
      FirstComp(a + b);
    }
  }

  /** What follows a component's separator does not make it longer. */
  lemma SameRun(a: string, b: string)
    requires b == "" || b[0] == '/' || ComRun(a) < |a|
    ensures var k := ComRun(a); ComRun(a + b) == k && (a + b)[..k] == a[..k] && (a + b)[k..] == a[k..] + b
  {
    hide ComRun;
    var k := ComRun(a);
    Prefixed(a, b, k);
    forall t | 0 <= t < k ensures (a + b)[t] != '/' {
      assert (a + b)[t] == a[t];
    }
    assert k < |a + b| ==> (a + b)[k] == '/';
    ComRunIs(a + b, k);
  }

  lemma Prefixed(a: string, b: string, k: nat)
    requires k <= |a|
    ensures (a + b)[..k] == a[..k] && (a + b)[k..] == a[k..] + b
  {
  }

  lemma {:induction false} ComRunIs(s: string, k: nat)
    requires k <= |s| && (forall t | 0 <= t < k :: s[t] != '/') && (k < |s| ==> s[k] == '/')
    ensures ComRun(s) == k
  {
    if k > 0 {
      ComRunIs(s[1..], k - 1);
    }
  }

  lemma CompsOfName(c: string)
    requires Name(c)
    ensures Comps(c) == [c]
  {
    ComRunIs(c, |c|);
    assert c[..|c|] == c && c[|c|..] == "";
    assert c[0] in c;
  }

  lemma {:induction false} CompsOfJoin(st: seq<string>)
    requires Names(st)
    ensures Comps(Join(st)) == st
    ensures st != [] ==> Join(st) != "" && Join(st)[0] != '/' && Join(st)[|Join(st)| - 1] != '/'
    decreases |st|
  {
    hide Comps;
    if st == [] {
      NoComps();
    } else if |st| == 1 {
      CompsOfName(st[0]);
      assert st[0][0] in st[0] && st[0][|st[0]| - 1] in st[0];
    } else {
      var init, last := st[..|st| - 1], st[|st| - 1];
      CompsOfJoin(init);
      assert Name(last);
      assert last[|last| - 1] in last;
      CompsConcat(Join(init), "/" + last);
      JoinLast(st);
      SlashName(last);
      assert st == init + [last];
    }
  }

  lemma JoinLast(st: seq<string>)
    requires |st| > 1
    ensures Join(st) == Join(st[..|st| - 1]) + ("/" + st[|st| - 1])
  {
  }

  lemma SlashName(c: string)
    requires Name(c)
    ensures Comps("/" + c) == [c]
  {
    CompsOfName(c);
    assert ("/" + c)[1..] == c;
  }

  lemma CompsOfText(abs: bool, st: seq<string>)
    requires Names(st)
    ensures Comps(Text(abs, st)) == st
    ensures Rooted(Text(abs, st)) == abs
  {
    CompsOfJoin(st);
    CompsConcat("/", Join(st));
    if !abs {
      assert Text(abs, st) == Join(st);
    }
  }

  lemma NormalNames(abs: bool, st: seq<string>)
    requires NormalForm(abs, st)
    ensures Names(st)
  {
    forall c | c in st ensures Name(c) {
      var t :| 0 <= t < |st| && st[t] == c;
    }
  }

  /** The canonical paths are the fixed points of Canon, and are the renderings of normal stacks. */
  lemma CanonOfRender(abs: bool, st: seq<string>)
    requires NormalForm(abs, st)
    ensures Canon(Render(abs, st)) == Render(abs, st)
  {
    NormalNames(abs, st);
    CompsOfText(abs, st);
    if Text(abs, st) == "" {
      CompsOfName(".");
      assert PushAll(false, [], ["."]) == PushAll(false, [], []);
      CompsOfText(false, []);
      assert !abs && st == [];
    } else {
      PushAllFixed(abs, st, 0);
      assert st[..0] == [] && st[0..] == st;
    }
  }

  lemma CanonNormal(s: string)
    ensures NormalForm(Rooted(s), PushAll(Rooted(s), [], Comps(s)))
  {
    CompsAreNames(s);
    PushAllNormal(Rooted(s), [], Comps(s));
  }

  lemma CanonIdempotent(s: string)
    ensures Canon(Canon(s)) == Canon(s)
  {
    CanonNormal(s);
    CanonOfRender(Rooted(s), PushAll(Rooted(s), [], Comps(s)));
  }

  /** What may be left out of a path: a name followed by "..", a ".", a second separator, and a ".." right
      behind the root. */
  lemma CanonRewrites(a: string, x: string, b: string)
    requires Proper(x)
    ensures Canon(a + "/" + x + "/../" + b) == Canon(a + "/" + b)
    ensures Canon(a + "/./" + b) == Canon(a + "/" + b)
    ensures Canon(a + "//" + b) == Canon(a + "/" + b)
    ensures Canon("/../" + b) == Canon("/" + b)
  {
    hide Comps, Render;
    Between(a, x, b);
    var abs := Rooted(a + "/" + b);
    var st := PushAll(abs, [], Comps(a));
    PushAllConcat(abs, [], Comps(a), [x, ".."] + Comps(b));
    PushAllConcat(abs, [], Comps(a), ["."] + Comps(b));
    PushAllConcat(abs, [], Comps(a), Comps(b));
    assert ([x, ".."] + Comps(b))[1..] == [".."] + Comps(b) && ([".."] + Comps(b))[1..] == Comps(b);
    assert (["."] + Comps(b))[1..] == Comps(b);
    assert (st + [x])[..|st|] == st;
    assert PushAll(abs, st, [x, ".."] + Comps(b)) == PushAll(abs, st + [x], [".."] + Comps(b)) == PushAll(abs, st, Comps(b));
    assert PushAll(abs, st, ["."] + Comps(b)) == PushAll(abs, st, Comps(b));
    assert PushAll(true, [], [".."] + Comps(b)) == PushAll(true, [], Comps(b));
  }

  /** The components of these paths. */
  lemma Between(a: string, x: string, b: string)
    requires Name(x)
    ensures Comps(a + "/" + x + "/../" + b) == Comps(a) + ([x, ".."] + Comps(b))
    ensures Comps(a + "/./" + b) == Comps(a) + (["."] + Comps(b))
    ensures Comps(a + "//" + b) == Comps(a + "/" + b) == Comps(a) + Comps(b)
    ensures Comps("/../" + b) == [".."] + Comps(b) && Comps("/" + b) == Comps(b)
    ensures Rooted(a + "/" + x + "/../" + b) == Rooted(a + "/" + b) == Rooted(a + "/./" + b) == Rooted(a + "//" + b)
  {
    hide Comps;
    SlashThen(b);
    SlashThen("/" + b);
    NameThen(".", b);
    NameThen("..", b);
    NameThen(x, "../" + b);
    CompsConcat(a, "/" + b);
    CompsConcat(a, "//" + b);
    CompsConcat(a, "/./" + b);
    CompsConcat(a, "/" + x + "/../" + b);
    SlashThen("./" + b);
    SlashThen("../" + b);
    SlashThen(x + "/../" + b);
    assert a + "/" + b == a + ("/" + b) && a + "//" + b == a + ("//" + b) && a + "/./" + b == a + ("/./" + b);
    assert "//" + b == "/" + ("/" + b) && "/./" + b == "/" + ("./" + b) && "/../" + b == "/" + ("../" + b);
    assert a + "/" + x + "/../" + b == a + ("/" + x + "/../" + b) && "/" + x + "/../" + b == "/" + (x + "/../" + b);
    assert x + "/../" + b == x + ("/" + ("../" + b)) && "./" + b == "." + ("/" + b) && "../" + b == ".." + ("/" + b);
    assert [x] + ([".."] + Comps(b)) == [x, ".."] + Comps(b);
  }

  lemma SlashThen(b: string)
    ensures Comps("/" + b) == Comps(b)
  {
    assert ("/" + b)[1..] == b;
  }

  lemma NameThen(x: string, b: string)
    requires Name(x)
    ensures Comps(x + ("/" + b)) == [x] + Comps(b)
  {
    hide Comps;
    CompsConcat(x, "/" + b);
    CompsOfName(x);
    SlashThen(b);
  }
}
