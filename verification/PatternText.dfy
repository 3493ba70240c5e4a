/** Patterns from the writer's side: the parts of a pattern, their text, and the strings they stand for
    as XCU 2.13 has it, told without the matcher's reading of that text. */
module PatternText {
  import opened Wrappers
  import opened Patterns
  import opened Brackets
  import F = Fnmatch

  /** What stands between the brackets. */
  datatype Item =
    | Single(c: char)             // c
    | Guarded(c: char)            // \c
    | Span(lo: char, hi: char)    // lo-hi
    | Named(name: string)         // [:name:]
    | Symbol(c: char)             // [.c.]
    | Equiv(c: char)              // [=c=]
    | Between(lo: char, hi: char) // [.lo.]-[.hi.]

  datatype Part =
    | Itself(c: char)             // c
    | Quoted(c: char)             // \c
    | AnyOne                      // ?
    | AnyRun                      // *
    | OneOf(negated: bool, bracket: bool, items: seq<Item>, dash: bool) // [!]items-], only some of it

  function ItemText(x: Item): (t: string)
    ensures t != ""
  {
    match x
    case Single(c) => [c]
    case Guarded(c) => ['\\', c]
    case Span(lo, hi) => [lo, '-', hi]
    case Named(n) => "[:" + (n + ":]")
    case Symbol(c) => ['[', '.', c, '.', ']']
    case Equiv(c) => ['[', '=', c, '=', ']']
    case Between(lo, hi) => ['[', '.', lo, '.', ']', '-', '[', '.', hi, '.', ']']
  }

  function ItemsText(xs: seq<Item>): string {
    if xs == [] then "" else ItemText(xs[0]) + ItemsText(xs[1..])
  }

  /** What follows the members. */
  function Tail(dash: bool): string { if dash then "-]" else "]" }

  function PartText(x: Part): (t: string)
    ensures t != ""
  {
    match x
    case Itself(c) => [c]
    case Quoted(c) => ['\\', c]
    case AnyOne => "?"
    case AnyRun => "*"
    case OneOf(negated, bracket, items, dash) =>
      "[" + ((if negated then "!" else "") + ((if bracket then "]" else "") + (ItemsText(items) + Tail(dash))))
  }

  function Text(xs: seq<Part>): string {
    if xs == [] then "" else PartText(xs[0]) + Text(xs[1..])
  }

  // Parts whose text says them

  predicate Ordinary(v: Env, c: char) {
    c != '[' && (c == '\\' ==> v.noescape)
  }

  /** A character that stands for itself inside brackets. */
  predicate Bare(v: Env, c: char) {
    Ordinary(v, c) && c != ']' && c != '-'
  }

  predicate ItemOk(v: Env, x: Item) {
    match x
    case Single(c) => Bare(v, c)
    case Guarded(_) => !v.noescape
    case Span(lo, hi) => Bare(v, lo) && Bare(v, hi)
    case Named(n) => forall i | 0 <= i < |n| :: 'a' <= n[i] <= 'z'
    case Symbol(c) => Ordinary(v, c)
    case Equiv(c) => Ordinary(v, c)
    case Between(lo, hi) => Ordinary(v, lo) && Ordinary(v, hi)
  }

  predicate ItemsOk(v: Env, xs: seq<Item>) {
    forall i | 0 <= i < |xs| :: ItemOk(v, xs[i])
  }

  predicate PartOk(v: Env, x: Part) {
    match x
    case Itself(c) => Ordinary(v, c) && c != '*' && c != '?'
    case Quoted(_) => !v.noescape
    case AnyOne => true
    case AnyRun => true
    case OneOf(negated, bracket, items, dash) =>
      && ItemsOk(v, items) && (bracket || dash || items != [])
      && (!bracket && items != [] ==> !items[0].Guarded? && (ItemText(items[0])[0] == '!' ==> negated))
  }

  predicate PartsOk(v: Env, xs: seq<Part>) {
    forall i | 0 <= i < |xs| :: PartOk(v, xs[i])
  }

  // What they stand for

  predicate Belongs(v: Env, x: Item, c: char) {
    match x
    case Single(d) => c == d
    case Guarded(d) => c == d
    case Span(lo, hi) => v.le(lo, c) && v.le(c, hi)
    case Named(n) =>
      && n in ["alnum", "alpha", "blank", "cntrl", "digit", "graph", "lower", "print", "punct", "space", "upper", "xdigit"]
      && v.isClass(n, c)
    case Symbol(d) => c == d
    case Equiv(d) => c == d
    case Between(lo, hi) => v.le(lo, c) && v.le(c, hi)
  }

  /** One part other than AnyRun and one character. */
  predicate Stands(v: Env, x: Part, c: char) {
    match x
    case Itself(d) => c == d
    case Quoted(d) => c == d
    case AnyOne => !(v.pathname && c == '/')
    case AnyRun => false
    case OneOf(negated, bracket, items, dash) =>
      && !(v.pathname && c == '/')
      && (((bracket && c == ']') || (dash && c == '-') || (exists i :: 0 <= i < |items| && Belongs(v, items[i], c))) <==> !negated)
  }

  /** A period at the start of s, where periods are leading, that the part does not spell out. */
  predicate Hides(v: Env, x: Part, s: string, lead: bool) {
    v.period && lead && s != "" && s[0] == '.' && x != Itself('.') && x != Quoted('.')
  }

  /** The strings the parts stand for; lead: whether a period at the start of s is a leading one. */
  ghost predicate Language(v: Env, xs: seq<Part>, s: string, lead: bool)
    decreases |xs|
  {
    if xs == [] then
      s == ""
    else if xs[0].AnyRun? then
      && !Hides(v, xs[0], s, lead)
      && exists a, b :: s == a + b && (v.pathname ==> '/' !in a) && Language(v, xs[1..], b, lead && a == "")
    else
      && s != "" && !Hides(v, xs[0], s, lead) && Stands(v, xs[0], s[0])
      && Language(v, xs[1..], s[1..], v.pathname && s[0] == '/')
  }

  // The elements they are read as

  function MemberOf(x: Item): Member {
    match x
    case Single(c) => One(c)
    case Guarded(c) => One(c)
    case Span(lo, hi) => Range(lo, hi)
    case Named(n) => Class(n)
    case Symbol(c) => One(c)
    case Equiv(c) => One(c)
    case Between(lo, hi) => Range(lo, hi)
  }

  function MembersOf(xs: seq<Item>, dash: bool): seq<Member> {
    if xs == [] then (if dash then [One('-')] else []) else [MemberOf(xs[0])] + MembersOf(xs[1..], dash)
  }

  function ElementOf(x: Part): Element {
    match x
    case Itself(c) => Lit(c)
    case Quoted(c) => Lit(c)
    case AnyOne => AnyChar
    case AnyRun => Star
    case OneOf(negated, bracket, items, dash) => Set((if bracket then [One(']')] else []) + MembersOf(items, dash), negated)
  }

  function ElementsOf(xs: seq<Part>): (es: seq<Element>)
    ensures |es| == |xs|
  {
    if xs == [] then [] else [ElementOf(xs[0])] + ElementsOf(xs[1..])
  }

  /** t lies in p at k. */
  predicate Lies(p: string, k: nat, t: string) {
    k + |t| <= |p| && p[k..k + |t|] == t
  }

  lemma LiesAfter(p: string, k: nat, a: string, b: string)
    requires Lies(p, k, a + b)
    ensures Lies(p, k, a) && Lies(p, k + |a|, b)
  {
    assert p[k..k + |a|] == (a + b)[..|a|] && p[k + |a|..k + |a + b|] == (a + b)[|a|..];
  }

  lemma LiesAt(p: string, k: nat, t: string, i: nat)
    requires Lies(p, k, t) && i < |t|
    ensures p[k + i] == t[i]
  {
    assert p[k..k + |t|][i] == p[k + i];
  }

  /** A subexpression ends at the first ":]" of its kind. */
  lemma {:induction false} EndsAt(p: string, t: nat, n: nat, d: char)
    requires t + n + 1 < |p| && p[t + n] == d && p[t + n + 1] == ']'
    requires forall i | t <= i < t + n :: !(p[i] == d && p[i + 1] == ']')
    ensures SubexprEnd(p, t, d) == t + n + 2
    decreases n
  {
    if n > 0 {
      EndsAt(p, t + 1, n - 1, d);
    }
  }

  /** What path_fnmatch_range_end makes of "-x", "-[.x.]" and "-]", and of what is no '-'. */
  lemma RangeEndReads(v: Env, p: string, k: nat, x: char)
    ensures Bare(v, x) && Lies(p, k, ['-', x]) ==> RangeEnd(p, k) == Some((x, k + 2))
    ensures Ordinary(v, x) && Lies(p, k, ['-', '[', '.', x, '.', ']']) ==> RangeEnd(p, k) == Some((x, k + 6))
    ensures Ordinary(v, x) && Lies(p, k, ['-', '[', '=', x, '=', ']']) ==> RangeEnd(p, k) == Some((x, k + 6))
    ensures Lies(p, k, "-]") || (k < |p| && p[k] != '-') || k >= |p| ==> RangeEnd(p, k) == None
  {
    if Lies(p, k, ['-', x]) {
      LiesAt(p, k, ['-', x], 0);
      LiesAt(p, k, ['-', x], 1);
    }
    if Lies(p, k, "-]") {
      LiesAt(p, k, "-]", 0);
      LiesAt(p, k, "-]", 1);
    }
    SymbolAt(v, p, k + 1, x, '.');
    SymbolAt(v, p, k + 1, x, '=');
    forall d | (d == '.' || d == '=') && Lies(p, k, ['-', '[', d, x, d, ']'])
      ensures p[k] == '-' && Lies(p, k + 1, ['[', d, x, d, ']'])
    {
      LiesAt(p, k, ['-', '[', d, x, d, ']'], 0);
      assert ['-', '[', d, x, d, ']'] == ['-'] + ['[', d, x, d, ']'];
      LiesAfter(p, k, ['-'], ['[', d, x, d, ']']);
    }
  }

  lemma SymbolAt(v: Env, p: string, k: nat, x: char, d: char)
    requires d == '.' || d == '='
    ensures Lies(p, k, ['[', d, x, d, ']']) ==>
              SubexprAt(p, k) == k + 5 && p[k] == '[' && p[k + 1] == d && p[k + 2] == x && p[k + 3] == d && p[k + 4] == ']'
  {
    var t := ['[', d, x, d, ']'];
    if Lies(p, k, t) {
      LiesAt(p, k, t, 0);
      LiesAt(p, k, t, 1);
      LiesAt(p, k, t, 2);
      LiesAt(p, k, t, 3);
      LiesAt(p, k, t, 4);
      EndsAt(p, k + 2, 1, d);
    }
  }

  lemma NameAt(p: string, k: nat, n: string)
    requires Lies(p, k, "[:" + (n + ":]")) && forall i | 0 <= i < |n| :: 'a' <= n[i] <= 'z'
    ensures SubexprAt(p, k) == k + |n| + 4 && p[k] == '[' && p[k + 1] == ':' && p[k + 2..k + |n| + 2] == n && p[k + |n| + 3] == ']'
    ensures forall i | k + 2 <= i < k + |n| + 2 :: 'a' <= p[i] <= 'z'
    ensures p[k + |n| + 2] == ':'
  {
    LiesAfter(p, k, "[:", n + ":]");
    LiesAfter(p, k + 2, n, ":]");
    LiesAt(p, k, "[:", 0);
    LiesAt(p, k, "[:", 1);
    LiesAt(p, k + 2 + |n|, ":]", 0);
    LiesAt(p, k + 2 + |n|, ":]", 1);
    forall i | k + 2 <= i < k + |n| + 2 ensures 'a' <= p[i] <= 'z' {
      LiesAt(p, k + 2, n, i - (k + 2));
    }
    EndsAt(p, k + 2, |n|, ':');
  }

  /** The item is read as it is meant, and passed whole. */
  predicate Read(v: Env, p: string, k: nat, x: Item)
    requires k < |p|
  {
    && MemberAt(v, p, k) == (MemberOf(x), k + |ItemText(x)|) && PlainEnd(v, p, k) && p[k] != ']'
    && (x.Guarded? || !Escape(v, p, k))
    && (x.Single? || x.Span? ==> SubexprAt(p, k) == 0)
  }

  /** One item, with another one, "-]" or ']' behind it. */
  lemma ReadsItem(v: Env, p: string, k: nat, x: Item)
    requires ItemOk(v, x) && Lies(p, k, ItemText(x))
    requires var e := k + |ItemText(x)|; e < |p| && (p[e] == '-' ==> Lies(p, e, "-]"))
    ensures Read(v, p, k, x)
  {
    hide Read, Lies, RangeEnd, MemberAt, PlainEnd, SubexprAt, Escape;
    var t := ItemText(x);
    RangeEndReads(v, p, k + |t|, 'x');
    match x
    case Single(c) => ReadsPlain(v, p, k, x);
    case Guarded(c) => ReadsPlain(v, p, k, x);
    case Span(lo, hi) => ReadsSpan(v, p, k, lo, hi);
    case Named(n) => ReadsName(v, p, k, n);
    case Symbol(c) => ReadsSymbol(v, p, k, x, c, '.');
    case Equiv(c) => ReadsSymbol(v, p, k, x, c, '=');
    case Between(lo, hi) => ReadsBetween(v, p, k, lo, hi);
  }

  lemma ReadsPlain(v: Env, p: string, k: nat, x: Item)
    requires (x.Single? || x.Guarded?) && ItemOk(v, x) && Lies(p, k, ItemText(x)) && RangeEnd(p, k + |ItemText(x)|) == None
    ensures Read(v, p, k, x)
  {
    LiesAt(p, k, ItemText(x), 0);
    if x.Guarded? {
      LiesAt(p, k, ItemText(x), 1);
    }
  }

  lemma ReadsSpan(v: Env, p: string, k: nat, lo: char, hi: char)
    requires Bare(v, lo) && Bare(v, hi) && Lies(p, k, [lo, '-', hi])
    ensures Read(v, p, k, Span(lo, hi))
  {
    hide RangeEnd;
    assert [lo, '-', hi] == [lo] + ['-', hi];
    LiesAfter(p, k, [lo], ['-', hi]);
    LiesAt(p, k, [lo], 0);
    LiesAt(p, k + 1, ['-', hi], 1);
    RangeEndReads(v, p, k + 1, hi);
  }

  lemma ReadsName(v: Env, p: string, k: nat, n: string)
    requires ItemOk(v, Named(n)) && Lies(p, k, ItemText(Named(n)))
    ensures Read(v, p, k, Named(n))
  {
    hide SubexprAt, RangeEnd;
    NameAt(p, k, n);
  }

  lemma ReadsSymbol(v: Env, p: string, k: nat, x: Item, c: char, d: char)
    requires (d == '.' && x == Symbol(c)) || (d == '=' && x == Equiv(c))
    requires Lies(p, k, ItemText(x)) && RangeEnd(p, k + 5) == None
    ensures Read(v, p, k, x)
  {
    hide SubexprAt, RangeEnd;
    SymbolAt(v, p, k, c, d);
  }

  lemma ReadsBetween(v: Env, p: string, k: nat, lo: char, hi: char)
    requires Ordinary(v, hi) && Lies(p, k, ItemText(Between(lo, hi)))
    ensures Read(v, p, k, Between(lo, hi))
  {
    hide SubexprAt, RangeEnd;
    var a, b := ['[', '.', lo, '.', ']'], ['-', '[', '.', hi, '.', ']'];
    assert ItemText(Between(lo, hi)) == a + b;
    LiesAfter(p, k, a, b);
    LiesAt(p, k + 5, b, 5);
    SymbolAt(v, p, k, lo, '.');
    RangeEndReads(v, p, k + 5, hi);
  }

  /** What can stand behind an item. */
  lemma BehindItem(v: Env, p: string, e: nat, xs: seq<Item>, dash: bool)
    requires ItemsOk(v, xs) && Lies(p, e, ItemsText(xs) + Tail(dash))
    ensures e < |p| && (p[e] == '-' ==> Lies(p, e, "-]")) && (p[e] == ']' ==> xs == [] && !dash)
  {
    LiesAt(p, e, ItemsText(xs) + Tail(dash), 0);
    if xs == [] {
      assert ItemsText(xs) + Tail(dash) == Tail(dash);
    } else {
      assert ItemOk(v, xs[0]);
      assert (ItemsText(xs) + Tail(dash))[0] == ItemText(xs[0])[0];
    }
  }

  /** The members from k on, none of them the first unless there is one. */
  lemma {:induction false} ReadsItems(v: Env, p: string, start: nat, k: nat, xs: seq<Item>, dash: bool)
    requires ItemsOk(v, xs) && Lies(p, k, ItemsText(xs) + Tail(dash)) && start <= k && (k == start ==> xs != [] || dash)
    ensures Body(v, p, start, k) == Some((MembersOf(xs, dash), k + |ItemsText(xs)| + |Tail(dash)| - 1))
    ensures k > start ==> Tidy(v, p, start, k)
    decreases |xs|
  {
    hide MemberAt, PlainEnd, MemberOf, ItemText, ItemOk, Lies, Escape, SubexprAt;
    BehindItem(v, p, k, xs, dash);
    if xs != [] {
      var t, rest := ItemText(xs[0]), ItemsText(xs[1..]) + Tail(dash);
      assert ItemsText(xs) + Tail(dash) == t + rest;
      LiesAfter(p, k, t, rest);
      BehindItem(v, p, k + |t|, xs[1..], dash);
      ReadsItem(v, p, k, xs[0]);
      ReadsItems(v, p, start, k + |t|, xs[1..], dash);
    } else {
      assert ItemsText(xs) + Tail(dash) == Tail(dash);
      ReadsTail(v, p, start, k, dash);
    }
  }

  lemma ReadsTail(v: Env, p: string, start: nat, k: nat, dash: bool)
    requires Lies(p, k, Tail(dash)) && start <= k && (k == start ==> dash)
    ensures Body(v, p, start, k) == Some((MembersOf([], dash), k + |Tail(dash)| - 1))
    ensures k > start ==> Tidy(v, p, start, k)
  {
    hide MemberAt, PlainEnd, Escape, SubexprAt;
    LiesAt(p, k, Tail(dash), 0);
    if dash {
      ReadsDash(v, p, k);
      LiesAt(p, k, "-]", 1);
      assert Body(v, p, start, k + 1) == Some(([], k + 1));
      assert [One('-')] + [] == [One('-')];
    }
  }

  lemma ReadsDash(v: Env, p: string, k: nat)
    requires Lies(p, k, "-]")
    ensures MemberAt(v, p, k) == (One('-'), k + 1) && PlainEnd(v, p, k) && !Escape(v, p, k) && SubexprAt(p, k) == 0
  {
    LiesAt(p, k, "-]", 0);
    LiesAt(p, k, "-]", 1);
  }

  /** Behind "[" and "!": the members, among them a ']' that comes first. */
  lemma ReadsInside(v: Env, p: string, start: nat, bracket: bool, items: seq<Item>, dash: bool)
    requires ItemsOk(v, items) && (bracket || dash || items != []) && (!bracket && items != [] ==> !items[0].Guarded?)
    requires Lies(p, start, (if bracket then "]" else "") + (ItemsText(items) + Tail(dash)))
    ensures var close := start + (if bracket then 1 else 0) + |ItemsText(items)| + |Tail(dash)| - 1;
            Body(v, p, start, start) == Some(((if bracket then [One(']')] else []) + MembersOf(items, dash), close))
    ensures start < |p| && Tidy(v, p, start, MemberAt(v, p, start).1) && start < MemberAt(v, p, start).1 <= |p|
    ensures ClosesFrom(v, p, start + 1)
  {
    hide MemberAt, PlainEnd, MemberOf, ItemText, ItemOk, Lies, Escape, SubexprAt, MembersOf, Tidy, ClosesFrom;
    var rest := ItemsText(items) + Tail(dash);
    if bracket {
      LiesAfter(p, start, "]", rest);
      BehindItem(v, p, start + 1, items, dash);
      ReadsItems(v, p, start, start + 1, items, dash);
      ReadsBracket(v, p, start);
      CloseOverFirst(v, p, start);
      TidyCloses(v, p, start, start + 1);
    } else {
      assert "" + rest == rest;
      ReadsItems(v, p, start, start, items, dash);
      BehindItem(v, p, start, items, dash);
      assert [] + MembersOf(items, dash) == MembersOf(items, dash);
      FirstItem(v, p, start, items, dash);
    }
  }

  lemma ReadsBracket(v: Env, p: string, k: nat)
    requires Lies(p, k, "]") && k + 1 < |p| && (p[k + 1] == '-' ==> Lies(p, k + 1, "-]"))
    ensures k < |p| && p[k] == ']' && MemberAt(v, p, k) == (One(']'), k + 1) && PlainEnd(v, p, k) && !Escape(v, p, k) && SubexprAt(p, k) == 0
  {
    LiesAt(p, k, "]", 0);
    RangeEndReads(v, p, k + 1, 'x');
  }

  /** The scan for a closing ']' begins behind the first character; in a subexpression it stops at the
      end of that. */
  lemma FirstItem(v: Env, p: string, start: nat, items: seq<Item>, dash: bool)
    requires ItemsOk(v, items) && (dash || items != []) && (items != [] ==> !items[0].Guarded?)
    requires Lies(p, start, ItemsText(items) + Tail(dash))
    ensures start < |p| && Tidy(v, p, start, MemberAt(v, p, start).1) && start < MemberAt(v, p, start).1 <= |p|
    ensures ClosesFrom(v, p, start + 1)
  {
    hide MemberAt, PlainEnd, MemberOf, ItemOk, Lies, Escape, SubexprAt, MembersOf, Tidy, ClosesFrom, ItemText, Body;
    if items == [] {
      assert ItemsText(items) + Tail(dash) == "-]";
      FirstDash(v, p, start);
    } else {
      var t, rest := ItemText(items[0]), ItemsText(items[1..]) + Tail(dash);
      assert ItemsText(items) + Tail(dash) == t + rest;
      LiesAfter(p, start, t, rest);
      FirstOfSome(v, p, start, items[0], items[1..], dash);
    }
  }

  lemma FirstDash(v: Env, p: string, start: nat)
    requires Lies(p, start, "-]")
    ensures start < |p| && Tidy(v, p, start, MemberAt(v, p, start).1) && start < MemberAt(v, p, start).1 <= |p|
    ensures ClosesFrom(v, p, start + 1)
  {
    hide MemberAt, PlainEnd, Escape, SubexprAt, Tidy, ClosesFrom, Body;
    LiesAt(p, start, "-]", 1);
    ReadsDash(v, p, start);
    ItemsText0(p, start);
    ReadsItems(v, p, start, start + 1, [], false);
    CloseOverFirst(v, p, start);
    TidyCloses(v, p, start, start + 1);
  }

  lemma FirstOfSome(v: Env, p: string, start: nat, x: Item, xs: seq<Item>, dash: bool)
    requires ItemOk(v, x) && ItemsOk(v, xs) && !x.Guarded?
    requires Lies(p, start, ItemText(x)) && Lies(p, start + |ItemText(x)|, ItemsText(xs) + Tail(dash))
    ensures start < |p| && Tidy(v, p, start, MemberAt(v, p, start).1) && start < MemberAt(v, p, start).1 <= |p|
    ensures ClosesFrom(v, p, start + 1)
  {
    hide MemberAt, PlainEnd, MemberOf, ItemOk, Lies, Escape, SubexprAt, MembersOf, Tidy, ClosesFrom, ItemText, ItemsText, Body;
    var n := start + |ItemText(x)|;
    BehindItem(v, p, n, xs, dash);
    ReadsItem(v, p, start, x);
    ReadsItems(v, p, start, n, xs, dash);
    TidyCloses(v, p, start, n);
    if x.Single? || x.Span? {
      CloseOverFirst(v, p, start);
    } else {
      InnerClose(v, p, start, x);
    }
  }

  lemma ItemsText0(p: string, k: nat)
    requires Lies(p, k, "-]")
    ensures Lies(p, k + 1, ItemsText([]) + Tail(false))
  {
    assert "-]" == "-" + "]" && ItemsText([]) + Tail(false) == "]";
    LiesAfter(p, k, "-", "]");
  }

  lemma InnerClose(v: Env, p: string, k: nat, x: Item)
    requires ItemOk(v, x) && (x.Named? || x.Symbol? || x.Equiv? || x.Between?) && Lies(p, k, ItemText(x))
    ensures ClosesFrom(v, p, k + 1)
  {
    match x
    case Named(n) =>
      NameAt(p, k, n);
      LettersPassed(v, p, k + 1, |n| + 2);
    case Symbol(c) =>
      SymbolAt(v, p, k, c, '.');
      ThreePassed(v, p, k + 1, c, '.');
    case Equiv(c) =>
      SymbolAt(v, p, k, c, '=');
      ThreePassed(v, p, k + 1, c, '=');
    case Between(lo, hi) =>
      var a, b := ['[', '.', lo, '.', ']'], ['-', '[', '.', hi, '.', ']'];
      assert ItemText(x) == a + b;
      LiesAfter(p, k, a, b);
      SymbolAt(v, p, k, lo, '.');
      ThreePassed(v, p, k + 1, lo, '.');
  }

  lemma ThreePassed(v: Env, p: string, k: nat, c: char, d: char)
    requires k + 3 < |p| && p[k] == d && p[k + 1] == c && p[k + 2] == d && p[k + 3] == ']' && (d == '.' || d == '=') && Ordinary(v, c)
    ensures ClosesFrom(v, p, k)
  {
    assert SubexprAt(p, k) == 0 && SubexprAt(p, k + 1) == 0 && SubexprAt(p, k + 2) == 0;
    assert ClosesFrom(v, p, k + 3) by { assert SubexprAt(p, k + 3) == 0; }
    assert ClosesFrom(v, p, k + 2);
    assert ClosesFrom(v, p, k + 1);
  }

  lemma {:induction false} LettersPassed(v: Env, p: string, k: nat, n: nat)
    requires k + n < |p| && p[k + n] == ']' && forall i | k <= i < k + n :: 'a' <= p[i] <= 'z' || p[i] == ':'
    ensures ClosesFrom(v, p, k)
    decreases n
  {
    assert SubexprAt(p, k) == 0;
    if n > 0 {
      LettersPassed(v, p, k + 1, n - 1);
    }
  }

  /** A bracket expression that is written so is read right, as the set it says. */
  lemma ReadsOneOf(v: Env, p: string, i: nat, x: Part)
    requires x.OneOf? && PartOk(v, x) && Lies(p, i, PartText(x))
    ensures i < |p| && p[i] == '[' && Right(v, p, i)
    ensures Start(p, i) == i + (if x.negated then 2 else 1)
    ensures Body(v, p, Start(p, i), Start(p, i)) == Some((ElementOf(x).members, i + |PartText(x)| - 1))
  {
    hide Tidy, SkipsRight, ClosesFrom, MemberAt, ItemText, ItemOk, MembersOf, Lies, ItemsText, Tail, Body;
    var inner := (if x.bracket then "]" else "") + (ItemsText(x.items) + Tail(x.dash));
    var bang := if x.negated then "!" else "";
    assert PartText(x) == "[" + (bang + inner);
    LiesAt(p, i, PartText(x), 0);
    LiesAfter(p, i, "[", bang + inner);
    LiesAfter(p, i + 1, bang, inner);
    StartsBehind(p, i, x, bang, inner);
    ReadsInside(v, p, i + 1 + |bang|, x.bracket, x.items, x.dash);
    FirstThenTidy(v, p, i + 1 + |bang|);
  }

  lemma StartsBehind(p: string, i: nat, x: Part, bang: string, inner: string)
    requires x.OneOf? && (x.bracket || x.dash || x.items != [])
    requires !x.bracket && x.items != [] && ItemText(x.items[0])[0] == '!' ==> x.negated
    requires i < |p| && bang == (if x.negated then "!" else "") && Lies(p, i + 1, bang) && Lies(p, i + 1 + |bang|, inner)
    requires inner == (if x.bracket then "]" else "") + (ItemsText(x.items) + Tail(x.dash))
    ensures Start(p, i) == i + 1 + |bang|
  {
    if x.negated {
      LiesAt(p, i + 1, "!", 0);
    } else {
      FirstIsNoBang(x);
      LiesAt(p, i + 1, inner, 0);
    }
  }

  lemma FirstIsNoBang(x: Part)
    requires x.OneOf? && !x.negated && (x.bracket || x.dash || x.items != [])
    requires !x.bracket && x.items != [] ==> ItemText(x.items[0])[0] != '!'
    ensures var inner := (if x.bracket then "]" else "") + (ItemsText(x.items) + Tail(x.dash)); inner != "" && inner[0] != '!'
  {
    var inner := (if x.bracket then "]" else "") + (ItemsText(x.items) + Tail(x.dash));
    if !x.bracket && x.items != [] {
      assert inner[0] == ItemText(x.items[0])[0];
    }
  }

  /** From behind the first member everything is tidy. */
  lemma FirstThenTidy(v: Env, p: string, start: nat)
    requires start < |p| && Body(v, p, start, start).Some? && start < MemberAt(v, p, start).1 <= |p|
    requires Tidy(v, p, start, MemberAt(v, p, start).1)
    ensures SkipsRight(v, p, start, start, [], Body(v, p, start, start).value.1)
  {
    hide Tidy, MemberAt;
    var (m, n) := MemberAt(v, p, start);
    TidyCloses(v, p, start, n);
    TidySkips(v, p, start, n, [] + [m]);
  }

  /** The matcher reads the parts off their text, each bracket expression right. */
  lemma {:induction false} ReadsParts(v: Env, p: string, i: nat, xs: seq<Part>)
    requires PartsOk(v, xs) && i <= |p| && p[i..] == Text(xs)
    ensures F.Elements(v, p, i) == ElementsOf(xs) && F.WellFormed(v, p, i)
    decreases |xs|
  {
    hide Right, Body, PartText, Lies, PartOk;
    if xs != [] {
      var x := xs[0];
      var t := PartText(x);
      assert Lies(p, i, t) by { LiesFrom(p, i, t, Text(xs[1..])); }
      assert p[i + |t|..] == Text(xs[1..]) by { LiesFrom(p, i, t, Text(xs[1..])); }
      assert PartOk(v, x);
      ReadsParts(v, p, i + |t|, xs[1..]);
      ReadsPart(v, p, i, x);
    }
  }

  lemma LiesFrom(p: string, i: nat, a: string, b: string)
    requires i <= |p| && p[i..] == a + b
    ensures Lies(p, i, a) && p[i + |a|..] == b
  {
    assert p[i..i + |a|] == p[i..][..|a|] && p[i + |a|..] == p[i..][|a|..];
  }

  lemma ReadsPart(v: Env, p: string, i: nat, x: Part)
    requires PartOk(v, x) && Lies(p, i, PartText(x))
    requires F.WellFormed(v, p, i + |PartText(x)|)
    ensures i < |p| && F.Elements(v, p, i) == [ElementOf(x)] + F.Elements(v, p, i + |PartText(x)|) && F.WellFormed(v, p, i)
  {
    hide Right, Body;
    LiesAt(p, i, PartText(x), 0);
    match x
    case OneOf(_, _, _, _) => ReadsOneOf(v, p, i, x);
    case Quoted(c) => LiesAt(p, i, PartText(x), 1);
    case _ =>
  }

  // The two meanings

  lemma BelongsIsHolds(v: Env, x: Item, c: char)
    ensures Belongs(v, x, c) <==> Holds(v, MemberOf(x), c)
  {
  }

  lemma {:induction false} SomeHolds(v: Env, xs: seq<Item>, dash: bool, c: char)
    ensures AnyHolds(v, MembersOf(xs, dash), c) <==> (dash && c == '-') || exists i :: 0 <= i < |xs| && Belongs(v, xs[i], c)
  {
    if xs == [] {
      assert dash ==> One('-') in MembersOf(xs, dash) && (Holds(v, One('-'), c) <==> c == '-');
    } else {
      SomeHolds(v, xs[1..], dash, c);
      BelongsIsHolds(v, xs[0], c);
      AnyOf(v, MembersOf(xs[1..], dash), MemberOf(xs[0]), c);
      if i :| 0 <= i < |xs| && Belongs(v, xs[i], c) {
        assert i > 0 ==> Belongs(v, xs[1..][i - 1], c);
      }
      if i :| 0 <= i < |xs[1..]| && Belongs(v, xs[1..][i], c) {
        assert Belongs(v, xs[i + 1], c);
      }
    }
  }

  lemma StandsIsTakes(v: Env, x: Part, c: char)
    ensures Stands(v, x, c) <==> Takes(v, ElementOf(x), c)
  {
    hide Belongs, Holds, MembersOf, AnyHolds;
    if x.OneOf? {
      SomeHolds(v, x.items, x.dash, c);
      BracketHolds(v, c);
      AnyOf(v, MembersOf(x.items, x.dash), One(']'), c);
      assert [] + MembersOf(x.items, x.dash) == MembersOf(x.items, x.dash);
    }
  }

  lemma BracketHolds(v: Env, c: char)
    ensures Holds(v, One(']'), c) <==> c == ']'
  {
  }

  predicate LeadAt(v: Env, s: string, j: nat)
    requires j <= |s|
  {
    j == 0 || (v.pathname && s[j - 1] == '/')
  }

  /** The strings of the language are those the matching relation holds of. */
  lemma {:induction false} LanguageIsMatches(v: Env, xs: seq<Part>, s: string, j: nat)
    requires j <= |s|
    ensures Language(v, xs, s[j..], LeadAt(v, s, j)) <==> Matches(v, ElementsOf(xs), s, j)
    decreases |xs|
  {
    hide Stands, Takes;
    var t, lead := s[j..], LeadAt(v, s, j);
    if xs != [] {
      var x := xs[0];
      var e := ElementOf(x);
      assert ElementsOf(xs)[0] == e && ElementsOf(xs)[1..] == ElementsOf(xs[1..]);
      assert j < |s| ==> t[0] == s[j] && (Hides(v, x, t, lead) <==> Blocked(v, e, s, j));
      if x.AnyRun? {
        RunIsStar(v, xs, s, j);
      } else {
        if j < |s| {
          StandsIsTakes(v, x, s[j]);
          LanguageIsMatches(v, xs[1..], s, j + 1);
          assert t[1..] == s[j + 1..];
        }
        assert !e.Star?;
      }
    }
  }

  lemma RunIsStar(v: Env, xs: seq<Part>, s: string, j: nat)
    requires j <= |s| && xs != [] && xs[0].AnyRun?
    ensures Language(v, xs, s[j..], LeadAt(v, s, j)) <==> Matches(v, ElementsOf(xs), s, j)
    decreases |xs|, 0
  {
    hide Hides, Blocked, LeadAt, Free;
    var t, lead, es := s[j..], LeadAt(v, s, j), ElementsOf(xs);
    assert es[0] == Star && es[1..] == ElementsOf(xs[1..]);
    HidesIsBlocked(v, xs[0], s, j);
    if Language(v, xs, t, lead) {
      var a, b :| t == a + b && (v.pathname ==> '/' !in a) && Language(v, xs[1..], b, lead && a == "");
      Splits(v, s, j, a, b);
      LanguageIsMatches(v, xs[1..], s, j + |a|);
      assert Free(v, s, j, j + |a|);
    }
    if Matches(v, es, s, j) {
      var k :| j <= k <= |s| && Free(v, s, j, k) && Matches(v, es[1..], s, k);
      var a, b := s[j..k], s[k..];
      assert t == a + b;
      Splits(v, s, j, a, b);
      LanguageIsMatches(v, xs[1..], s, k);
      assert Language(v, xs[1..], b, lead && a == "");
    }
  }

  lemma HidesIsBlocked(v: Env, x: Part, s: string, j: nat)
    requires j <= |s| && x.AnyRun?
    ensures Hides(v, x, s[j..], LeadAt(v, s, j)) <==> j < |s| && Blocked(v, Star, s, j)
  {
  }

  lemma Splits(v: Env, s: string, j: nat, a: string, b: string)
    requires j <= |s| && s[j..] == a + b
    ensures var k := j + |a|;
            && k <= |s| && s[k..] == b && s[j..k] == a
            && ((v.pathname ==> '/' !in a) <==> Free(v, s, j, k))
            && ((v.pathname ==> '/' !in a) ==> (LeadAt(v, s, k) <==> LeadAt(v, s, j) && a == ""))
  {
    var k := j + |a|;
    assert s[j..][|a|..] == b && s[k..] == s[j..][|a|..] && s[j..k] == s[j..][..|a|];
    assert forall i | j <= i < k :: s[i] == a[i - j];
    if v.pathname && '/' in a {
      var i :| 0 <= i < |a| && a[i] == '/';
      assert Slash(v, s[j + i]);
    }
  }

  /** path_fnmatch on the text of a pattern answers whether the string is one the pattern stands for. */
  lemma TextMeans(v: Env, xs: seq<Part>, s: string)
    requires PartsOk(v, xs)
    ensures F.Accepts(v, Text(xs), s) <==> Language(v, xs, s, true)
  {
    var p := Text(xs);
    assert p[0..] == p && s[0..] == s;
    ReadsParts(v, p, 0, xs);
    F.MatcherDecides(v, p, s);
    LanguageIsMatches(v, xs, s, 0);
  }

  /** A pattern of one part takes the characters the part stands for, one at a time. */
  lemma OnePart(v: Env, x: Part, c: char)
    requires PartOk(v, x) && !x.AnyRun? && (v.period ==> c != '.')
    ensures F.Accepts(v, PartText(x), [c]) <==> Stands(v, x, c)
  {
    TextMeans(v, [x], [c]);
    assert [x][1..] == [] && [c][1..] == "";
    assert Text([x]) == PartText(x) + "" == PartText(x);
  }

  /** "[lo-hi]" takes what lies from lo to hi in the order of characters, "[!lo-hi]" the rest. */
  lemma RangeTakes(v: Env, lo: char, hi: char, c: char)
    requires Bare(v, lo) && Bare(v, hi) && lo != '!' && !v.pathname && !v.period
    ensures F.Accepts(v, ['[', lo, '-', hi, ']'], [c]) <==> v.le(lo, c) && v.le(c, hi)
    ensures F.Accepts(v, ['[', '!', lo, '-', hi, ']'], [c]) <==> !(v.le(lo, c) && v.le(c, hi))
  {
    var items := [Span(lo, hi)];
    var yes, no := OneOf(false, false, items, false), OneOf(true, false, items, false);
    OneItem(items);
    assert PartText(yes) == ['[', lo, '-', hi, ']'] && PartText(no) == ['[', '!', lo, '-', hi, ']'];
    assert Belongs(v, items[0], c) <==> v.le(lo, c) && v.le(c, hi);
    OnePart(v, yes, c);
    OnePart(v, no, c);
  }

  lemma OneItem(items: seq<Item>)
    requires |items| == 1
    ensures ItemsText(items) + Tail(false) == ItemText(items[0]) + "]"
  {
    assert items[1..] == [];
    assert ItemsText(items) == ItemText(items[0]) + "" == ItemText(items[0]);
  }

  /** "[[:alpha:]]" takes the letters, and so for every class. */
  lemma ClassTakes(v: Env, name: string, c: char)
    requires name in ["alnum", "alpha", "blank", "cntrl", "digit", "graph", "lower", "print", "punct", "space", "upper", "xdigit"]
    requires !v.pathname && !v.period
    ensures F.Accepts(v, "[[:" + name + ":]]", [c]) <==> v.isClass(name, c)
    ensures F.Accepts(v, "[![:" + name + ":]]", [c]) <==> !v.isClass(name, c)
  {
    var items := [Named(name)];
    var yes, no := OneOf(false, false, items, false), OneOf(true, false, items, false);
    OneItem(items);
    assert PartText(yes) == "[[:" + name + ":]]" && PartText(no) == "[![:" + name + ":]]";
    assert Belongs(v, items[0], c) <==> v.isClass(name, c);
    OnePart(v, yes, c);
    OnePart(v, no, c);
  }

  /** "[d]" takes d alone, "?" any character, an ordinary character and "\d" d alone. */
  lemma OthersTake(v: Env, d: char, c: char)
    requires !v.pathname && !v.period && !v.noescape
    ensures F.Accepts(v, "?", [c])
    ensures F.Accepts(v, ['\\', d], [c]) <==> c == d
    ensures Ordinary(v, d) && d != '*' && d != '?' ==> (F.Accepts(v, [d], [c]) <==> c == d)
    ensures Bare(v, d) && d != '!' ==> (F.Accepts(v, ['[', d, ']'], [c]) <==> c == d)
  {
    OnePart(v, AnyOne, c);
    OnePart(v, Quoted(d), c);
    if Ordinary(v, d) && d != '*' && d != '?' {
      OnePart(v, Itself(d), c);
    }
    if Bare(v, d) && d != '!' {
      var items := [Single(d)];
      var one := OneOf(false, false, items, false);
      OneItem(items);
      assert PartText(one) == ['[', d, ']'];
      assert Belongs(v, items[0], c) <==> c == d;
      OnePart(v, one, c);
    }
  }
}
