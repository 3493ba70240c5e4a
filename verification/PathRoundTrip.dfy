/** Going from base to p along path_rel's answer ends at p, exactly when the answer does not have to
    leave a ".." or "." of base again. */
module PathRoundTrip {
  import opened Paths
  import opened PathScan
  import opened PathRel

  lemma CanonicalShape(p: string) returns (st: seq<string>)
    requires Canon(p) == p
    ensures st == PushAll(Rooted(p), [], Comps(p))
    ensures p != "" && NormalForm(Rooted(p), st) && p == Render(Rooted(p), st)
    ensures p == "." ==> !Rooted(p)
    ensures st == [] && !Rooted(p) ==> p == "."
    ensures if p == "." then st == [] && Comps(p) == ["."] else Comps(p) == st
  {
    st := PushAll(Rooted(p), [], Comps(p));
    CanonNormal(p);
    NormalNames(Rooted(p), st);
    CompsOfText(Rooted(p), st);
    CompsOfName(".");
    PushDot(false, []);
  }

  lemma PushDot(abs: bool, st: seq<string>)
    ensures PushAll(abs, st, ["."]) == st && PushAll(abs, st, []) == st
  {
    assert PushAll(abs, st, ["."]) == PushAll(abs, Push(abs, st, "."), []);
  }

  lemma RenderInjective(abs: bool, s: seq<string>, t: seq<string>)
    requires NormalForm(abs, s) && NormalForm(abs, t) && Render(abs, s) == Render(abs, t)
    ensures s == t
  {
    NormalNames(abs, s);
    NormalNames(abs, t);
    CompsOfText(abs, s);
    CompsOfText(abs, t);
    CompsOfName(".");
  }

  lemma DotsNormal(n: nat)
    ensures NormalForm(false, Dots(n)) && Ups(Dots(n)) == n
  {
    UpsIs(Dots(n), n);
  }

  lemma {:induction false} PopDots(abs: bool, st: seq<string>, n: nat)
    requires NormalForm(abs, st) && n <= |st| - Ups(st)
    ensures PushAll(abs, st, Dots(n)) == st[..|st| - n]
    ensures NormalForm(abs, st[..|st| - n]) && Ups(st[..|st| - n]) == Ups(st)
    decreases n
  {
    if n > 0 {
      var st' := st[..|st| - 1];
      assert Dots(n)[1..] == Dots(n - 1);
      PushNormal(abs, st, "..");
      assert Push(abs, st, "..") == st';
      PopDots(abs, st', n - 1);
      assert st'[..|st| - n] == st[..|st| - n];
    } else {
      assert st[..|st|] == st;
    }
  }

  lemma {:induction false} GrowDots(m: nat, n: nat)
    ensures PushAll(false, Dots(m), Dots(n)) == Dots(m + n)
    decreases n
  {
    if n > 0 {
      assert Dots(n)[1..] == Dots(n - 1);
      assert Push(false, Dots(m), "..") == Dots(m + 1);
      GrowDots(m + 1, n - 1);
    }
  }

  /** n times "..", more than st has components to pop. */
  lemma PushDots(st: seq<string>, n: nat)
    requires NormalForm(false, st) && n >= |st| - Ups(st)
    ensures PushAll(false, st, Dots(n)) == Dots(2 * Ups(st) + n - |st|)
  {
    hide NormalForm, PushAll, Push, Ups;
    var u := Ups(st);
    var a := |st| - u;
    PopDots(false, st, a);
    assert st[..u] == Dots(u);
    assert Dots(n) == Dots(a) + Dots(n - a);
    PushAllConcat(false, st, Dots(a), Dots(n - a));
    GrowDots(u, n - a);
  }

  lemma RelTextComps(n: nat, rest: string)
    requires !Rooted(rest)
    ensures !Rooted(RelText(n, rest))
    ensures Comps(RelText(n, rest)) == if n == 0 && rest == "" then ["."] else Dots(n) + Comps(rest)
  {
    hide Comps, Join;
    DotsText(n);
    CompsOfName(".");
    if n > 0 {
      assert Names(Dots(n));
      CompsOfJoin(Dots(n));
      SlashComps(rest);
      if rest == "" {
        assert Join(Dots(n)) + "" + rest == Join(Dots(n));
        assert Comps("") == [] by { NoComps(); }
      } else {
        CompsConcat(Join(Dots(n)), "/" + rest);
        assert Join(Dots(n)) + "/" + rest == Join(Dots(n)) + ("/" + rest);
      }
    } else if rest != "" {
      assert Dots(0) + Comps(rest) == Comps(rest);
      assert Join(Dots(0)) == "";
      assert RelText(n, rest) == rest;
    }
  }

  /** Neither "." nor ".." among cs. */
  predicate Plain(cs: seq<string>) {
    forall c | c in cs :: c != "." && c != ".."
  }

  /** The component stack of the joined path. */
  lemma JoinedStack(base: string, rest: string, n: nat, abs: bool, bst: seq<string>)
    requires base != "" && abs == Rooted(base) && !Rooted(rest)
    requires bst == PushAll(abs, [], Comps(base)) && NormalForm(abs, bst)
    ensures Canon(Cat(base, RelText(n, rest))) == Render(abs, PushAll(abs, PushAll(abs, bst, Dots(n)), Comps(rest)))
  {
    hide Comps, Cat, RelText, Render;
    var rel := RelText(n, rest);
    RelTextComps(n, rest);
    CatComps(base, rel);
    PushAllConcat(abs, [], Comps(base), Comps(rel));
    PushAllConcat(abs, bst, Dots(n), Comps(rest));
    if n == 0 && rest == "" {
      NoComps();
      PushDot(abs, bst);
      assert Dots(0) == [];
    }
  }

  lemma PushRest(abs: bool, top: seq<string>, rs: seq<string>)
    requires NormalForm(abs, top + rs)
    ensures PushAll(abs, top, rs) == top + rs
  {
    PushAllFixed(abs, top + rs, |top|);
    assert (top + rs)[..|top|] == top && (top + rs)[|top|..] == rs;
  }

  lemma PlainFrom(abs: bool, st: seq<string>, k: nat)
    requires NormalForm(abs, st) && k <= |st|
    ensures Plain(st[k..]) <==> Ups(st) <= k
  {
    hide Ups;
    if Ups(st) > k {
      assert st[k..][0] == st[k] == ".." && st[k..][0] in st[k..];
    } else {
      forall c | c in st[k..] ensures c != "." && c != ".." {
        var t :| 0 <= t < |st| - k && st[k..][t] == c;
        assert Proper(st[k + t]);
      }
    }
  }

  lemma NotADot(abs: bool, st: seq<string>)
    requires NormalForm(abs, st)
    ensures st != [] ==> st[0] != "."
  {
  }

  /** No ".." is left to climb out of: the stack of p comes back. */
  lemma StackComesBack(abs: bool, bst: seq<string>, cs: seq<string>, pst: seq<string>)
    requires NormalForm(abs, bst) && NormalForm(abs, pst)
    requires pst == cs || (pst == [] && cs == ["."])
    requires var k := Common(cs, bst); Plain(bst[k..])
    ensures var k := Common(cs, bst);
            PushAll(abs, PushAll(abs, bst, Dots(|bst| - k)), cs[k..]) == pst
  {
    hide NormalForm, PushAll, Dots, Plain, Push;
    var k := Common(cs, bst);
    CommonIsLongest(cs, bst, k);
    PlainFrom(abs, bst, k);
    PopDots(abs, bst, |bst| - k);
    if pst == cs {
      PushAllFixed(abs, cs, k);
    } else {
      NotADot(abs, bst);
      assert k == 0;
      assert cs[0..] == ["."] && bst[..0] == [];
      PushDot(abs, []);
    }
  }

  /** A ".." of base below the common part cannot be climbed out of: the result has more "..". */
  lemma StackIsDeeper(bst: seq<string>, cs: seq<string>, pst: seq<string>)
    requires NormalForm(false, bst) && NormalForm(false, pst)
    requires pst == cs || (pst == [] && cs == ["."])
    requires var k := Common(cs, bst); !Plain(bst[k..])
    ensures var k := Common(cs, bst);
            var r := PushAll(false, PushAll(false, bst, Dots(|bst| - k)), cs[k..]);
            NormalForm(false, r) && r != pst
  {
    hide Ups, Push, Common;
    var k := Common(cs, bst);
    var u := Ups(bst);
    CommonIsLongest(cs, bst, k);
    PlainFrom(false, bst, k);
    PushDots(bst, |bst| - k);
    var m := 2 * u - k;
    var rs := cs[k..];
    DotsNormal(m);
    assert k < |cs| ==> cs[k] != ".." by {
      if k < |cs| && cs[k] == ".." {
        assert cs[..k + 1] == cs[..k] + [".."] && bst[..k + 1] == bst[..k] + [".."];
        CommonIsLongest(cs, bst, k + 1);
      }
    }
    if pst == cs {
      forall t | 0 <= t < k ensures cs[t] == ".." {
        assert cs[..k][t] == bst[..k][t];
      }
      UpsIs(cs, k);
      UpsIs(Dots(m) + rs, m);
      PushRest(false, Dots(m), rs);
    } else {
      assert bst != [] ==> bst[0] != ".";
      assert rs == ["."];
      PushDot(false, Dots(m));
    }
  }

  /** Going from base along path_rel's answer leads to p if and only if the components of base
      after the common ones are all names. */
  lemma RelRoundTrip(p: string, base: string, rest: string)
    requires Canon(p) == p && Canon(base) == base && Rooted(p) == Rooted(base)
    requires Comps(rest) == Comps(p)[Common(Comps(p), Comps(base))..] && !Rooted(rest)
    ensures var bs := Comps(base);
            var k := Common(Comps(p), bs);
            Canon(Cat(base, RelText(|bs| - k, rest))) == p <==> Plain(bs[k..])
  {
    hide *;
    var abs := Rooted(p);
    var pst := CanonicalShape(p);
    var bst := CanonicalShape(base);
    var cs, bs := Comps(p), Comps(base);
    var k := Common(cs, bs);
    var n := |bs| - k;
    var r := PushAll(abs, PushAll(abs, bst, Dots(n)), Comps(rest));
    JoinedStack(base, rest, n, abs, bst);
    if base == "." {
      FromDot(cs, pst);
    } else if Plain(bs[k..]) {
      StackComesBack(abs, bst, cs, pst);
    } else {
      PlainFrom(abs, bst, k);
      assert !abs by { AbsHasNoUps(abs, bst); }
      StackIsDeeper(bst, cs, pst);
    }
    if r != pst && Render(abs, r) == Render(abs, pst) {
      RenderInjective(abs, r, pst);
    }
  }

  lemma AbsHasNoUps(abs: bool, st: seq<string>)
    requires NormalForm(abs, st)
    ensures abs ==> Ups(st) == 0
  {
  }

  lemma FromDot(cs: seq<string>, pst: seq<string>)
    requires NormalForm(false, pst) && if pst == [] then cs == ["."] else pst == cs
    ensures var k := Common(cs, ["."]);
            var r := PushAll(false, PushAll(false, [], Dots(1 - k)), cs[k..]);
            NormalForm(false, r) && (r == pst <==> Plain(["."][k..]))
  {
    var k := Common(cs, ["."]);
    if pst == [] {
      assert PushAll(false, [], []) == [];
      assert cs[1..] == [];
    } else {
      assert k == 0;
      assert "." in ["."][0..];
      DotsNormal(1);
      assert PushAll(false, [], Dots(1)) == Dots(1) by { GrowDots(0, 1); assert Dots(0) == []; }
      UpsIs(Dots(1) + cs, 1 + Ups(cs));
      PushRest(false, Dots(1), cs);
    }
  }

  /** For absolute canonical paths it always does. */
  lemma AbsoluteRoundTrip(p: string, base: string, rest: string)
    requires Canon(p) == p && Canon(base) == base && Rooted(p) && Rooted(base)
    requires Comps(rest) == Comps(p)[Common(Comps(p), Comps(base))..] && !Rooted(rest)
    ensures Canon(Cat(base, RelText(|Comps(base)| - Common(Comps(p), Comps(base)), rest))) == p
  {
    var bst := CanonicalShape(base);
    PlainFrom(true, bst, Common(Comps(p), Comps(base)));
    RelRoundTrip(p, base, rest);
  }

  lemma Alone(c: string)
    requires Name(c) && c != "."
    ensures Comps(c) == [c] && Canon(c) == c && !Rooted(c)
  {
    CompsOfName(c);
    assert PushAll(false, [], [c]) == PushAll(false, [c], []) == [c];
  }

  lemma DotAlone()
    ensures Comps(".") == ["."] && Canon(".") == "." && !Rooted(".")
  {
    CompsOfName(".");
    PushDot(false, []);
  }

  lemma UpAndIn()
    ensures RelText(1, "a") == "../a"
  {
    assert Dots(1) == [".."];
  }

  /** From "." to "a" path_rel says "../a", as if "." were a directory to leave. */
  lemma FromDotFails()
    ensures Canon("a") == "a" && Canon(".") == "." && Common(Comps("a"), Comps(".")) == 0
    ensures RelText(|Comps(".")|, "a") == "../a" && Canon(Cat(".", "../a")) != "a"
  {
    hide Comps, Canon, Cat, RelText;
    Alone("a");
    DotAlone();
    UpAndIn();
    RelRoundTrip("a", ".", "a");
    assert "." in ["."];
  }

  /** From ".." to "a" it says "../a", which leads to "../../a". */
  lemma FromUpFails()
    ensures Canon("a") == "a" && Canon("..") == ".." && Common(Comps("a"), Comps("..")) == 0
    ensures RelText(|Comps("..")|, "a") == "../a" && Canon(Cat("..", "../a")) != "a"
  {
    hide Comps, Canon, Cat, RelText;
    Alone("a");
    Alone("..");
    UpAndIn();
    RelRoundTrip("a", "..", "a");
    assert ".." in [".."];
  }
}
