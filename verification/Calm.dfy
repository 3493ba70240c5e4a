/** Programs without jumps, function calls and open loops: what they run and whether they succeed, told
    by recursion over the program alone, with no shell state. */
module Calm {
  import opened Wrappers
  import opened Commands
  import opened Frames
  import opened Evaluator

  /** What a run leaves to see: the utilities, and the words a for loop binds. */
  datatype Mark = Util(id: nat) | Word(word: nat)

  /** The status of each utility, whether redirections can be made, and "set -e". */
  datatype Facts = Facts(util: nat -> int, opens: nat -> bool, strict: bool)

  datatype End = Go(status: int) | Halt(status: int)
  datatype Told = Told(marks: seq<Mark>, end: End)

  predicate Calm(c: Cmd) {
    match c
    case Simple(_) => true
    case Group(cs) => AllCalm(cs)
    case If(t, y, n) => AllCalm(t) && AllCalm(y) && AllCalm(n) && (n != [] && IsIf(n[0]) ==> |n| == 1 && n[0].If?)
    case For(_, b) => AllCalm(b) && b != []
    case AndOr(_, l, r) => Calm(l) && Calm(r)
    case Not(d) => Calm(d)
    case Time(d) => Calm(d)
    case Subshell(cs) => AllCalm(cs)
    case Eval(ls) => AllCalm(ls)
    case Source(ls) => AllCalm(ls)
    case Redirected(_, d) => Calm(d)
    case _ => false
  }

  predicate AllCalm(cs: seq<Cmd>) {
    forall i | 0 <= i < |cs| :: Calm(cs[i])
  }

  /** "set -e" looks at the status of utilities, subshells, timed commands, eval and dot; the parts of
      the others have been looked at. */
  predicate Watched(c: Cmd) {
    match c
    case Simple(_) => true
    case Subshell(_) => true
    case Time(_) => true
    case Eval(_) => true
    case Source(_) => true
    case Redirected(_, d) => Watched(d)
    case _ => false
  }

  function After(x: Told, y: Told): Told {
    Told(x.marks + y.marks, y.end)
  }

  /** exempt: "set -e" is off here. */
  function One(f: Facts, exempt: bool, c: Cmd): Told
    decreases c, 0, 0
  {
    match c
    case Simple(id) => Told([Util(id)], Go(f.util(id)))
    case Group(cs) => All(f, exempt, cs, 0)
    case If(t, y, n) =>
      var x := All(f, true, t, 0);
      if x.end == Go(0) then After(x, All(f, exempt, y, 0))
      else if x.end.Go? then After(x, All(f, exempt, n, 0))
      else x
    case For(ws, b) => Rounds(f, exempt, ws, b, 0)
    case AndOr(or, l, r) =>
      var x := Line(f, true, l);
      if x.end.Go? && (if or then x.end.status != 0 else x.end.status == 0) then After(x, Line(f, exempt, r)) else x
    case Not(d) =>
      var x := Line(f, true, d);
      if x.end.Go? then x.(end := Go(if x.end.status == 0 then 1 else 0)) else x
    case Time(d) => Line(f, true, d)
    case Subshell(cs) =>
      var x := All(f, exempt, cs, 0);
      x.(end := Go(x.end.status))
    case Eval(ls) => All(f, exempt, ls, 0)
    case Source(ls) =>
      var x := All(f, exempt, ls, 0);
      x.(end := Go(x.end.status))
    case Redirected(id, d) => if f.opens(id) then One(f, exempt, d) else Told([], Go(1))
    case _ => Told([], Go(0))
  }

  /** A command in a list: where it fails under "set -e", that is the end. */
  function Line(f: Facts, exempt: bool, c: Cmd): Told
    decreases c, 1, 0
  {
    var x := One(f, exempt, c);
    if x.end.Go? && x.end.status != 0 && f.strict && !exempt && Watched(c) then x.(end := Halt(x.end.status)) else x
  }

  function All(f: Facts, exempt: bool, cs: seq<Cmd>, ret: int): Told
    decreases cs, 0, |cs|
  {
    if cs == [] then Told([], Go(ret))
    else
      var x := Line(f, exempt, cs[0]);
      if x.end.Go? then After(x, All(f, exempt, cs[1..], x.end.status)) else x
  }

  /** One round for each word, in order. */
  function Rounds(f: Facts, exempt: bool, ws: seq<nat>, b: seq<Cmd>, ret: int): Told
    decreases b, 1, |ws|
  {
    if ws == [] then Told([], Go(ret))
    else
      var x := After(Told([Word(ws[0])], Go(0)), All(f, exempt, b, 0));
      if x.end.Go? then After(x, Rounds(f, exempt, ws[1..], b, x.end.status)) else x
  }

  /** Enough fuel. */
  function Height(c: Cmd): (h: nat)
    ensures h > 0
  {
    match c
    case Group(cs) => 1 + Tallest(cs)
    case If(t, y, n) => 1 + Max(Tallest(t), Max(Tallest(y), Tallest(n)))
    case For(_, b) => 1 + Tallest(b)
    case AndOr(_, l, r) => 1 + Max(Height(l), Height(r))
    case Not(d) => 1 + Height(d)
    case Time(d) => 1 + Height(d)
    case Subshell(cs) => 1 + Tallest(cs)
    case Eval(ls) => 1 + Tallest(ls)
    case Source(ls) => 1 + Tallest(ls)
    case Redirected(_, d) => 1 + Height(d)
    case _ => 1
  }

  function Max(a: nat, b: nat): nat { if a < b then b else a }

  function Tallest(cs: seq<Cmd>): nat {
    if cs == [] then 0 else Max(Height(cs[0]), Tallest(cs[1..]))
  }

  function Shown(trace: seq<Event>): (ms: seq<Mark>)
    ensures |ms| == |trace|
  {
    seq(|trace|, i requires 0 <= i < |trace| => if trace[i].Ran? then Util(trace[i].id) else Word(trace[i].word))
  }

  lemma ShownMore(trace: seq<Event>, e: Event)
    ensures Shown(trace + [e]) == Shown(trace) + [if e.Ran? then Util(e.id) else Word(e.word)]
  {
  }

  predicate Fit(x: int) { 0 <= x < 0x8000 }

  /** The shell's surroundings are as the facts say. */
  ghost predicate Fixed(cfg: Config, f: Facts) {
    && !cfg.scoped && cfg.errexit == f.strict
    && (forall t, id :: cfg.oracle(t, id) == f.util(id))
    && (forall id :: Fit(f.util(id)))
    && (forall t, id :: cfg.opens(t, id) == f.opens(id))
  }

  /** From st the shell came to r, and that is what was told. */
  predicate Does(st: State, r: Result, x: Told) {
    && Shown(r.st.trace) == Shown(st.trace) + x.marks
    && Fit(x.end.status) && r.st.suppress == st.suppress
    && match x.end
       case Go(s) => r.out == Done(s)
       case Halt(s) => r.out == Quit(s) && s != 0 && st.suppress == 0
  }

  lemma Small(s: int)
    requires Fit(s)
    ensures Short(s) == s && Returned(s) == s && Exited(s) == s
  {
  }

  lemma Joined(a: State, b: State, r: Result, x: Told, y: Told)
    requires Shown(b.trace) == Shown(a.trace) + x.marks && b.suppress == a.suppress && Does(b, r, y)
    ensures Does(a, r, After(x, y))
  {
  }

  lemma TreeDoes(cfg: Config, f: Facts, fuel: nat, ctx: Context, cs: seq<Cmd>, ret: int, st: State)
    requires Fixed(cfg, f) && AllCalm(cs) && fuel >= Tallest(cs) && st.suppress >= 0 && Fit(ret)
    ensures Does(st, Tree(cfg, fuel, ctx, cs, ret, st), All(f, st.suppress > 0, cs, ret))
    ensures var r := Tree(cfg, fuel, ctx, cs, ret, st);
            r.out.Done? ==> r.st.last == if cs == [] then st.last else r.out.status
    decreases fuel, 1, |cs|
  {
    hide Node, One, Shown, Height, Watched, Short;
    if cs != [] {
      assert Calm(cs[0]) && AllCalm(cs[1..]);
      NodeDoes(cfg, f, fuel, ctx, cs[0], st);
      var r, x := Node(cfg, fuel, ctx, cs[0], st), One(f, st.suppress > 0, cs[0]);
      if x.end.Go? {
        Small(x.end.status);
        WatchedIsOpaque(cs[0]);
        var q := Check(cfg, ctx, cs[0], x.end.status, r.st.(last := x.end.status));
        if q.out.Done? {
          TreeDoes(cfg, f, fuel, ctx, cs[1..], x.end.status, q.st);
          Joined(st, q.st, Tree(cfg, fuel, ctx, cs[1..], x.end.status, q.st), x, All(f, st.suppress > 0, cs[1..], x.end.status));
        }
      }
    }
  }

  lemma WatchedIsOpaque(c: Cmd)
    requires Calm(c)
    ensures Watched(c) <==> Opaque(c)
  {
    if c.Redirected? {
      WatchedIsOpaque(c.cmd);
    }
  }

  lemma MembersDo(cfg: Config, f: Facts, fuel: nat, ctx: Context, cs: seq<Cmd>, ret: int, st: State)
    requires Fixed(cfg, f) && AllCalm(cs) && fuel >= Tallest(cs) && st.suppress >= 0 && Fit(ret)
    ensures Does(st, Members(cfg, fuel, ctx, cs, ret, st), All(f, st.suppress > 0, cs, ret))
    decreases fuel, 1, |cs|
  {
    hide Node, One, Shown, Height, Watched, Short;
    if cs != [] {
      assert Calm(cs[0]) && AllCalm(cs[1..]);
      NodeDoes(cfg, f, fuel, ctx, cs[0], st);
      var r, x := Node(cfg, fuel, ctx, cs[0], st), One(f, st.suppress > 0, cs[0]);
      if x.end.Go? {
        Small(x.end.status);
        WatchedIsOpaque(cs[0]);
        var q := Check(cfg, ctx, cs[0], x.end.status, r.st.(dollar := x.end.status));
        if q.out.Done? {
          MembersDo(cfg, f, fuel, ctx, cs[1..], x.end.status, q.st);
          Joined(st, q.st, Members(cfg, fuel, ctx, cs[1..], x.end.status, q.st), x, All(f, st.suppress > 0, cs[1..], x.end.status));
        }
      }
    }
  }

  lemma ExemptDoes(cfg: Config, f: Facts, fuel: nat, ctx: Context, cs: seq<Cmd>, st: State)
    requires Fixed(cfg, f) && AllCalm(cs) && fuel >= Tallest(cs) && st.suppress >= 0
    ensures Does(st, Exempt(cfg, fuel, ctx, cs, st), All(f, true, cs, 0)) && All(f, true, cs, 0).end.Go?
    decreases fuel, 2, 0
  {
    hide Tree, All, Shown;
    TreeDoes(cfg, f, fuel, ctx, cs, 0, st.(suppress := st.suppress + 1));
  }

  lemma AllOfOne(f: Facts, exempt: bool, c: Cmd)
    ensures All(f, exempt, [c], 0) == Line(f, exempt, c) && AllCalm([c]) == Calm(c) && Tallest([c]) == Height(c)
  {
    assert [c][1..] == [];
    var x := Line(f, exempt, c);
    assert x.marks + [] == x.marks;
    assert Tallest([]) == 0;
    assert AllCalm([c]) ==> Calm([c][0]);
  }

  lemma NodeDoes(cfg: Config, f: Facts, fuel: nat, ctx: Context, c: Cmd, st: State)
    requires Fixed(cfg, f) && Calm(c) && fuel >= Height(c) && st.suppress >= 0
    ensures Does(st, Node(cfg, fuel, ctx, c, st), One(f, st.suppress > 0, c))
    decreases fuel, 0, 0
  {
    hide Tree, Members, Exempt, Branch, Each, Inner, Evaluated, File, All, Line, Rounds, Shown, Kept, Tallest, Fixed, Does;
    match c
    case Simple(id) => UtilityDoes(cfg, f, fuel, ctx, id, st);
    case Group(cs) => MembersDo(cfg, f, fuel - 1, ctx, cs, 0, st);
    case If(t, y, n) => BranchDoes(cfg, f, fuel - 1, ctx, t, y, n, st);
    case For(ws, b) => RoundsDo(cfg, f, fuel - 1, ctx, ws, b, false, 0, st);
    case AndOr(or, l, r) => AndOrDoes(cfg, f, fuel - 1, ctx, c, st);
    case Not(d) => NotDoes(cfg, f, fuel - 1, ctx, c, st);
    case Time(d) =>
      AllOfOne(f, true, d);
      ExemptDoes(cfg, f, fuel - 1, ctx, [d], st);
    case Subshell(cs) => InnerDoes(cfg, f, fuel - 1, ctx, cs, st);
    case Eval(ls) => EvaluatedDoes(cfg, f, fuel - 1, ctx, ls, st);
    case Source(ls) => FileDoes(cfg, f, fuel - 1, ctx, ls, st);
    case Redirected(id, d) => RedirectedDoes(cfg, f, fuel - 1, ctx, c, st);
  }

  lemma UtilityDoes(cfg: Config, f: Facts, fuel: nat, ctx: Context, id: nat, st: State)
    requires Fixed(cfg, f) && fuel > 0
    ensures Does(st, Node(cfg, fuel, ctx, Simple(id), st), One(f, st.suppress > 0, Simple(id)))
  {
    ShownMore(st.trace, Ran(id, ctx.at, st.dollar));
  }

  lemma AndOrDoes(cfg: Config, f: Facts, fuel: nat, ctx: Context, c: Cmd, st: State)
    requires Fixed(cfg, f) && c.AndOr? && Calm(c) && fuel + 1 >= Height(c) && st.suppress >= 0
    ensures Does(st, Node(cfg, fuel + 1, ctx, c, st), One(f, st.suppress > 0, c))
    decreases fuel, 3, 0
  {
    hide Tree, Exempt, All, Line, Shown, Kept;
    AllOfOne(f, true, c.left);
    AllOfOne(f, st.suppress > 0, c.right);
    ExemptDoes(cfg, f, fuel, ctx, [c.left], st);
    var r, x := Exempt(cfg, fuel, ctx, [c.left], st), Line(f, true, c.left);
    TreeDoes(cfg, f, fuel, ctx, [c.right], 0, r.st);
    Joined(st, r.st, Tree(cfg, fuel, ctx, [c.right], 0, r.st), x, Line(f, st.suppress > 0, c.right));
  }

  lemma NotDoes(cfg: Config, f: Facts, fuel: nat, ctx: Context, c: Cmd, st: State)
    requires Fixed(cfg, f) && c.Not? && Calm(c) && fuel + 1 >= Height(c) && st.suppress >= 0
    ensures Does(st, Node(cfg, fuel + 1, ctx, c, st), One(f, st.suppress > 0, c))
    decreases fuel, 3, 0
  {
    hide Tree, Exempt, All, Line, Shown, Kept;
    AllOfOne(f, true, c.cmd);
    ExemptDoes(cfg, f, fuel, ctx, [c.cmd], st);
  }

  lemma RedirectedDoes(cfg: Config, f: Facts, fuel: nat, ctx: Context, c: Cmd, st: State)
    requires Fixed(cfg, f) && c.Redirected? && Calm(c) && fuel + 1 >= Height(c) && st.suppress >= 0
    ensures Does(st, Node(cfg, fuel + 1, ctx, c, st), One(f, st.suppress > 0, c))
    decreases fuel, 3, 0
  {
    hide Shown, Kept;
    var at := ctx.at.(fds := ctx.at.fds + [st.serial]);
    NodeDoes(cfg, f, fuel, ctx.(at := at), c.cmd, st.(serial := st.serial + 1));
  }

  lemma BranchDoes(cfg: Config, f: Facts, fuel: nat, ctx: Context, t: seq<Cmd>, y: seq<Cmd>, n: seq<Cmd>, st: State)
    requires Fixed(cfg, f) && Calm(If(t, y, n)) && fuel + 1 >= Height(If(t, y, n)) && st.suppress >= 0
    ensures Does(st, Branch(cfg, fuel, ctx, t, y, n, st), One(f, st.suppress > 0, If(t, y, n)))
    decreases fuel, 3, 0
  {
    hide Tree, Exempt, All, Shown, Kept, AllCalm, Tallest;
    ExemptDoes(cfg, f, fuel, ctx, t, st);
    var r, x, exempt := Exempt(cfg, fuel, ctx, t, st), All(f, true, t, 0), st.suppress > 0;
    if x.end.status == 0 {
      TreeDoes(cfg, f, fuel, ctx, y, 0, r.st);
      Joined(st, r.st, Tree(cfg, fuel, ctx, y, 0, r.st), x, All(f, exempt, y, 0));
    } else if n != [] && IsIf(n[0]) {
      assert n == [n[0]];
      AllOfOne(f, exempt, n[0]);
      PlainLine(f, exempt, n[0]);
      BranchDoes(cfg, f, fuel - 1, ctx, n[0].test, n[0].yes, n[0].no, r.st);
      Joined(st, r.st, Branch(cfg, fuel - 1, ctx, n[0].test, n[0].yes, n[0].no, r.st), x, All(f, exempt, n, 0));
    } else {
      TreeDoes(cfg, f, fuel, ctx, n, 0, r.st);
      Joined(st, r.st, Tree(cfg, fuel, ctx, n, 0, r.st), x, All(f, exempt, n, 0));
    }
  }

  lemma PlainLine(f: Facts, exempt: bool, c: Cmd)
    requires c.If?
    ensures Line(f, exempt, c) == One(f, exempt, c)
  {
  }

  lemma RoundsDo(cfg: Config, f: Facts, fuel: nat, ctx: Context, ws: seq<nat>, b: seq<Cmd>, ran: bool, ret: int, st: State)
    requires Fixed(cfg, f) && AllCalm(b) && b != [] && fuel >= Tallest(b) && st.suppress >= 0 && Fit(ret)
    requires ret == if ran then st.last else 0
    ensures Does(st, Each(cfg, fuel, ctx, ws, b, ran, st), Rounds(f, st.suppress > 0, ws, b, ret))
    decreases fuel, 3, |ws|
  {
    hide Tree, All, Shown, Kept, Tallest, AllCalm, Each, Short;
    if ws == [] {
      EachNone(cfg, fuel, ctx, b, ran, st);
    } else {
      EachNext(cfg, fuel, ctx, ws, b, ran, st);
      var st1 := st.(trace := st.trace + [Bound(ws[0])]);
      ShownMore(st.trace, Bound(ws[0]));
      var inside := ctx.(loops := ctx.loops + 1);
      TreeDoes(cfg, f, fuel, inside, b, 0, st1);
      var r, x := Tree(cfg, fuel, inside, b, 0, st1), All(f, st.suppress > 0, b, 0);
      var first := Told([Word(ws[0])], Go(0));
      Joined(st, st1, r, first, x);
      if x.end.Go? {
        RoundsDo(cfg, f, fuel, ctx, ws[1..], b, true, x.end.status, r.st);
        Joined(st, r.st, Each(cfg, fuel, ctx, ws[1..], b, true, r.st), After(first, x), Rounds(f, st.suppress > 0, ws[1..], b, x.end.status));
      }
    }
  }

  lemma InnerDoes(cfg: Config, f: Facts, fuel: nat, ctx: Context, cs: seq<Cmd>, st: State)
    requires Fixed(cfg, f) && AllCalm(cs) && fuel >= Tallest(cs) && st.suppress >= 0
    ensures Does(st, Inner(cfg, fuel, ctx, cs, st), One(f, st.suppress > 0, Subshell(cs)))
    decreases fuel, 3, 0
  {
    hide Tree, All, Shown, Kept, Short, Returned, Exited;
    var at := ctx.at.(fds := ctx.at.fds + [st.serial], vars := ctx.at.vars + [st.serial + 1]);
    TreeDoes(cfg, f, fuel, Context(at, 0, false, true, ctx.exempt), cs, 0, st.(serial := st.serial + 2, last := 0));
    Small(All(f, st.suppress > 0, cs, 0).end.status);
    NothingGoes(f, st.suppress > 0);
  }

  lemma NothingGoes(f: Facts, exempt: bool)
    ensures All(f, exempt, [], 0) == Told([], Go(0))
  {
  }

  lemma LinesDo(cfg: Config, f: Facts, fuel: nat, ctx: Context, ls: seq<Cmd>, ret: int, st: State)
    requires Fixed(cfg, f) && AllCalm(ls) && fuel >= Tallest(ls) && st.suppress >= 0 && Fit(ret) && st.last == ret
    ensures Does(st, Lines(cfg, fuel, ctx, ls, st), All(f, st.suppress > 0, ls, ret))
    decreases fuel, 2, |ls|
  {
    hide Tree, Line, Shown, Kept, Height;
    if ls != [] {
      AllOfOne(f, st.suppress > 0, ls[0]);
      assert Calm(ls[0]) && AllCalm(ls[1..]);
      TreeDoes(cfg, f, fuel, ctx, [ls[0]], 0, st);
      var r, x := Tree(cfg, fuel, ctx, [ls[0]], 0, st), Line(f, st.suppress > 0, ls[0]);
      if x.end.Go? {
        LinesDo(cfg, f, fuel, ctx, ls[1..], x.end.status, r.st);
        Joined(st, r.st, Lines(cfg, fuel, ctx, ls[1..], r.st), x, All(f, st.suppress > 0, ls[1..], x.end.status));
      }
    }
  }

  lemma EvaluatedDoes(cfg: Config, f: Facts, fuel: nat, ctx: Context, ls: seq<Cmd>, st: State)
    requires Fixed(cfg, f) && AllCalm(ls) && fuel >= Tallest(ls) && st.suppress >= 0
    ensures Does(st, Evaluated(cfg, fuel, ctx, ls, st), One(f, st.suppress > 0, Eval(ls)))
    decreases fuel, 3, 0
  {
    hide Lines, All, Shown, Kept;
    var at := ctx.at.(srcs := ctx.at.srcs + [st.serial]);
    LinesDo(cfg, f, fuel, ctx.(at := at), ls, 0, st.(serial := st.serial + 1, last := 0));
  }

  lemma ScriptDoes(cfg: Config, f: Facts, fuel: nat, ctx: Context, ls: seq<Cmd>, ret: int, st: State)
    requires Fixed(cfg, f) && AllCalm(ls) && fuel >= Tallest(ls) && st.suppress >= 0 && Fit(ret) && (ls == [] ==> st.dollar == ret)
    ensures Does(st, Script(cfg, fuel, ctx, ls, st), All(f, st.suppress > 0, ls, ret))
    decreases fuel, 2, |ls|
  {
    hide Tree, Line, Shown, Kept, Height, Short;
    if ls != [] {
      AllOfOne(f, st.suppress > 0, ls[0]);
      assert Calm(ls[0]) && AllCalm(ls[1..]);
      TreeDoes(cfg, f, fuel, ctx, [ls[0]], 0, st.(last := 0));
      var r, x := Tree(cfg, fuel, ctx, [ls[0]], 0, st.(last := 0)), Line(f, st.suppress > 0, ls[0]);
      if x.end.Go? {
        Small(x.end.status);
        var st1 := r.st.(last := st.last, dollar := Short(r.st.last));
        ScriptDoes(cfg, f, fuel, ctx, ls[1..], x.end.status, st1);
        Joined(st, st1, Script(cfg, fuel, ctx, ls[1..], st1), x, All(f, st.suppress > 0, ls[1..], x.end.status));
      }
    }
  }

  lemma FileDoes(cfg: Config, f: Facts, fuel: nat, ctx: Context, ls: seq<Cmd>, st: State)
    requires Fixed(cfg, f) && AllCalm(ls) && fuel >= Tallest(ls) && st.suppress >= 0
    ensures Does(st, File(cfg, fuel, ctx, ls, st), One(f, st.suppress > 0, Source(ls)))
    decreases fuel, 3, 0
  {
    hide Script, Shown, Kept, Short, Returned, Exited;
    if ls == [] {
      EmptyFile(cfg, fuel, ctx, st);
    } else {
      hide All;
      var at := ctx.at.(srcs := ctx.at.srcs + [st.serial]);
      ScriptDoes(cfg, f, fuel, Context(at, 0, true, true, ctx.exempt), ls, 0, st.(serial := st.serial + 1, last := 0));
      Small(All(f, st.suppress > 0, ls, 0).end.status);
    }
  }

  lemma EmptyFile(cfg: Config, fuel: nat, ctx: Context, st: State)
    ensures File(cfg, fuel, ctx, [], st) == Result(Done(0), st.(serial := st.serial + 1, dollar := 0))
  {
  }

  /** A whole script without jumps: the utilities it runs and the words it binds, in order, and the
      status it ends with, are those told; under "set -e" it halts where that is told. */
  lemma MainDoes(cfg: Config, f: Facts, fuel: nat, lines: seq<Cmd>)
    requires Fixed(cfg, f) && AllCalm(lines) && fuel >= Tallest(lines)
    ensures var r, x := Main(cfg, fuel, lines), All(f, false, lines, 0);
            && Shown(r.st.trace) == x.marks
            && match x.end
               case Go(s) => r.out == Done(s)
               case Halt(s) => r.out == Quit(s) && s != 0
  {
    ScriptDoes(cfg, f, fuel, Context(Stacks([], [], []), 0, false, false, false), lines, 0, State([], 0, 0, 0, 0, None));
    assert Shown([]) == [];
  }

  // Without "set -e": truth values

  /** The truth value of a command: that of a list is the last one's. */
  predicate True(f: Facts, c: Cmd) {
    match c
    case Simple(id) => f.util(id) == 0
    case AndOr(or, l, r) => if or then True(f, l) || True(f, r) else True(f, l) && True(f, r)
    case Not(d) => !True(f, d)
    case Time(d) => True(f, d)
    case If(t, y, n) => (Last(f, t) && Last(f, y)) || (!Last(f, t) && Last(f, n))
    case For(ws, b) => ws == [] || Last(f, b)
    case Group(cs) => Last(f, cs)
    case Subshell(cs) => Last(f, cs)
    case Eval(ls) => Last(f, ls)
    case Source(ls) => Last(f, ls)
    case Redirected(id, d) => f.opens(id) && True(f, d)
    case _ => true
  }

  predicate Last(f: Facts, cs: seq<Cmd>) {
    cs == [] || True(f, cs[|cs| - 1])
  }

  /** What is run to find it, from left to right: the right operand of "&&" only behind a true one,
      that of "||" only behind a false one, one branch of an if, a for's body once for each word. */
  function Read(f: Facts, c: Cmd): seq<Mark>
    decreases c, 0, 0
  {
    match c
    case Simple(id) => [Util(id)]
    case AndOr(or, l, r) => Read(f, l) + if True(f, l) <==> or then [] else Read(f, r)
    case Not(d) => Read(f, d)
    case Time(d) => Read(f, d)
    case If(t, y, n) => ReadAll(f, t) + ReadAll(f, if Last(f, t) then y else n)
    case For(ws, b) => ReadFor(f, ws, b)
    case Group(cs) => ReadAll(f, cs)
    case Subshell(cs) => ReadAll(f, cs)
    case Eval(ls) => ReadAll(f, ls)
    case Source(ls) => ReadAll(f, ls)
    case Redirected(id, d) => if f.opens(id) then Read(f, d) else []
    case _ => []
  }

  function ReadAll(f: Facts, cs: seq<Cmd>): seq<Mark>
    decreases cs, 0, |cs|
  {
    if cs == [] then [] else Read(f, cs[0]) + ReadAll(f, cs[1..])
  }

  function ReadFor(f: Facts, ws: seq<nat>, b: seq<Cmd>): seq<Mark>
    decreases b, 1, |ws|
  {
    if ws == [] then [] else [Word(ws[0])] + ReadAll(f, b) + ReadFor(f, ws[1..], b)
  }

  /** What is told of a command without "set -e". */
  predicate Says(x: Told, ms: seq<Mark>, truth: bool) {
    x.marks == ms && x.end.Go? && (x.end.status == 0 <==> truth)
  }

  lemma {:induction false} OneSays(f: Facts, exempt: bool, c: Cmd)
    requires !f.strict && Calm(c)
    ensures Says(One(f, exempt, c), Read(f, c), True(f, c))
    decreases c, 0, 0
  {
    match c
    case Simple(id) =>
    case Group(cs) => AllSay(f, exempt, cs, 0);
    case If(t, y, n) =>
      AllSay(f, true, t, 0);
      AllSay(f, exempt, y, 0);
      AllSay(f, exempt, n, 0);
    case For(ws, b) => RoundsSay(f, exempt, ws, b, 0);
    case AndOr(or, l, r) =>
      OneSays(f, true, l);
      OneSays(f, exempt, r);
      assert Read(f, l) + [] == Read(f, l);
    case Not(d) => OneSays(f, true, d);
    case Time(d) => OneSays(f, true, d);
    case Subshell(cs) => AllSay(f, exempt, cs, 0);
    case Eval(ls) => AllSay(f, exempt, ls, 0);
    case Source(ls) => AllSay(f, exempt, ls, 0);
    case Redirected(id, d) => OneSays(f, exempt, d);
  }

  lemma {:induction false} AllSay(f: Facts, exempt: bool, cs: seq<Cmd>, ret: int)
    requires !f.strict && AllCalm(cs)
    ensures Says(All(f, exempt, cs, ret), ReadAll(f, cs), if cs == [] then ret == 0 else Last(f, cs))
    decreases cs, 0, |cs|
  {
    if cs != [] {
      assert Calm(cs[0]) && AllCalm(cs[1..]);
      OneSays(f, exempt, cs[0]);
      AllSay(f, exempt, cs[1..], One(f, exempt, cs[0]).end.status);
    }
  }

  lemma {:induction false} RoundsSay(f: Facts, exempt: bool, ws: seq<nat>, b: seq<Cmd>, ret: int)
    requires !f.strict && AllCalm(b) && b != []
    ensures Says(Rounds(f, exempt, ws, b, ret), ReadFor(f, ws, b), if ws == [] then ret == 0 else Last(f, b))
    decreases b, 1, |ws|
  {
    if ws != [] {
      AllSay(f, exempt, b, 0);
      RoundsSay(f, exempt, ws[1..], b, All(f, exempt, b, 0).end.status);
    }
  }

  /** Without "set -e": a script without jumps runs exactly what is read to find its truth value, and
      its status is 0 if and only if that is true. */
  lemma MainIsFormula(cfg: Config, f: Facts, fuel: nat, lines: seq<Cmd>)
    requires Fixed(cfg, f) && !cfg.errexit && AllCalm(lines) && fuel >= Tallest(lines)
    ensures var r := Main(cfg, fuel, lines);
            Shown(r.st.trace) == ReadAll(f, lines) && r.out.Done? && (r.out.status == 0 <==> Last(f, lines))
  {
    MainDoes(cfg, f, fuel, lines);
    AllSay(f, false, lines, 0);
  }

  /** The shell itself, on a script without jumps. */
  method RunCalm(cfg: Config, ghost f: Facts, fuel: nat, lines: seq<Cmd>) returns (s: Signal, trace: seq<Event>)
    requires Fixed(cfg, f) && AllCalm(lines) && fuel >= Tallest(lines)
    ensures var x := All(f, false, lines, 0);
            Shown(trace) == x.marks && s == match x.end case Go(v) => Back(v) case Halt(v) => Halted(v)
    ensures !cfg.errexit ==> Shown(trace) == ReadAll(f, lines) && s.Back? && (s.status == 0 <==> Last(f, lines))
  {
    MainDoes(cfg, f, fuel, lines);
    if !cfg.errexit {
      MainIsFormula(cfg, f, fuel, lines);
    }
    s, trace := Shell.Run(cfg, fuel, lines);
  }
}
