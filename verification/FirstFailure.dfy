/** Under "set -e" a script runs exactly as without it, up to the first command that fails outside
    what is exempt, and there the shell ends with a failure. */
module FirstFailure {
  import opened Wrappers
  import opened Commands

  /** A status that a short holds and that is not negative. */
  predicate Fit(x: int) { 0 <= x < 0x8000 }

  /** No return in c names a status that a short cannot hold. */
  predicate Modest(c: Cmd) {
    match c
    case Return(v) => v.Some? ==> Fit(v.value)
    case Group(cs) => AllModest(cs)
    case If(t, y, n) => AllModest(t) && AllModest(y) && AllModest(n)
    case Loop(_, t, b) => AllModest(t) && AllModest(b)
    case For(_, b) => AllModest(b)
    case AndOr(_, l, r) => Modest(l) && Modest(r)
    case Not(d) => Modest(d)
    case Time(d) => Modest(d)
    case Subshell(cs) => AllModest(cs)
    case Eval(ls) => AllModest(ls)
    case Source(ls) => AllModest(ls)
    case Redirected(_, d) => Modest(d)
    case _ => true
  }

  predicate AllModest(cs: seq<Cmd>) {
    forall i | 0 <= i < |cs| :: Modest(cs[i])
  }

  ghost predicate Strict(cfg: Config) {
    && cfg.scoped && cfg.errexit && AllModest(cfg.fns)
    && forall t, id :: Fit(cfg.oracle(t, id))
  }

  function Lenient(cfg: Config): Config { cfg.(errexit := false) }

  predicate FitState(st: State) { Fit(st.last) && Fit(st.dollar) }

  predicate FitOut(out: Outcome) {
    match out
    case Done(v) => Fit(v)
    case Ret(v) => Fit(v)
    case Quit(v) => Fit(v)
    case _ => true
  }

  /** From st, the strict run came to x and the lenient one to n. `here`: whether the failure may
      still be this command's own status. */
  predicate Halts(st: State, x: Result, n: Result, here: bool) {
    && FitOut(x.out) && FitState(x.st)
    && if x.st.failed.None? then x == n
       else
         && x.st.failed == n.st.failed == Some(|x.st.trace|)
         && x.st.trace <= n.st.trace
         && ((x.out.Quit? && x.out.code != 0) || (here && x.out.Done? && x.out.status != 0))
  }

  ghost predicate Starts(cfg: Config, st: State) {
    Strict(cfg) && FitState(st) && st.failed.None?
  }

  lemma Statuses(v: int)
    requires Fit(v)
    ensures Short(v) == v && Returned(v) == v && Exited(v) == v
  {
  }

  /** Fit statuses come out of the encoding of return, exit and short as they went in. */
  lemma Arrives(r: Result)
    ensures Short(0) == 0
    ensures Fit(r.st.last) ==> Short(r.st.last) == r.st.last
    ensures r.out.Done? && Fit(r.out.status) ==> Short(r.out.status) == r.out.status
    ensures r.out.Ret? && Fit(r.out.value) ==> Returned(r.out.value) == r.out.value && Short(r.out.value) == r.out.value
    ensures r.out.Quit? && Fit(r.out.code) ==> Exited(r.out.code) == r.out.code && Short(r.out.code) == r.out.code
  {
    hide Short, Returned, Exited;
    Statuses(0);
    if Fit(r.st.last) {
      Statuses(r.st.last);
    }
    match r.out
    case Done(v) => if Fit(v) { Statuses(v); }
    case Ret(v) => if Fit(v) { Statuses(v); }
    case Quit(v) => if Fit(v) { Statuses(v); }
    case _ =>
  }

  lemma CheckHalts(cfg: Config, ctx: Context, c: Cmd, status: int, st: State)
    requires Starts(cfg, st) && Fit(status)
    ensures Halts(st, Check(cfg, ctx, c, status, st), Check(Lenient(cfg), ctx, c, status, st), false)
  {
  }

  lemma TreeHalts(cfg: Config, fuel: nat, ctx: Context, cs: seq<Cmd>, ret: int, st: State)
    requires Starts(cfg, st) && AllModest(cs) && Fit(ret)
    ensures Halts(st, Tree(cfg, fuel, ctx, cs, ret, st), Tree(Lenient(cfg), fuel, ctx, cs, ret, st), false)
    decreases fuel, 1, |cs|
  {
    if cs != [] {
      NodeHalts(cfg, fuel, ctx, cs[0], st);
      var x, n := Node(cfg, fuel, ctx, cs[0], st), Node(Lenient(cfg), fuel, ctx, cs[0], st);
      if x.out.Done? {
        var v := x.out.status;
        Statuses(v);
        var xs := x.st.(last := Short(v));
        if x.st.failed.None? {
          CheckHalts(cfg, ctx, cs[0], v, xs);
          var q := Check(cfg, ctx, cs[0], v, xs);
          if q.out.Done? {
            TreeHalts(cfg, fuel, ctx, cs[1..], v, q.st);
          }
        }
      }
    }
  }

  lemma NodeHalts(cfg: Config, fuel: nat, ctx: Context, c: Cmd, st: State)
    requires Starts(cfg, st) && Modest(c)
    ensures Halts(st, Node(cfg, fuel, ctx, c, st), Node(Lenient(cfg), fuel, ctx, c, st), Opaque(c))
    decreases fuel, 0, 0
  {
    hide Tree, Members, Exempt, Branch, Repeat, Each, Function, Inner, Evaluated, File, Kept, AllModest, Strict;
    if fuel > 0 {
      match c
      case Group(cs) => MembersHalts(cfg, fuel - 1, ctx, cs, 0, st);
      case If(t, y, n) => BranchHalts(cfg, fuel - 1, ctx, t, y, n, st);
      case Loop(u, t, d) => RepeatHalts(cfg, fuel - 1, ctx, u, t, d, 0, st);
      case For(ws, d) => EachHalts(cfg, fuel - 1, ctx, ws, d, false, st);
      case AndOr(_, _, _) => OperandHalts(cfg, fuel - 1, ctx, c, st);
      case Not(_) => OperandHalts(cfg, fuel - 1, ctx, c, st);
      case Time(_) => OperandHalts(cfg, fuel - 1, ctx, c, st);
      case Call(f) =>
        if f < |cfg.fns| {
          FunctionHalts(cfg, fuel - 1, ctx, f, st);
        }
      case Subshell(cs) => InnerHalts(cfg, fuel - 1, ctx, cs, st);
      case Eval(ls) => EvaluatedHalts(cfg, fuel - 1, ctx, ls, st);
      case Source(ls) => FileHalts(cfg, fuel - 1, ctx, ls, st);
      case Redirected(_, d) =>
        var at := ctx.at.(fds := ctx.at.fds + [st.serial]);
        NodeHalts(cfg, fuel - 1, ctx.(at := at), d, st.(serial := st.serial + 1));
      case _ => LeafHalts(cfg, fuel, ctx, c, st);
    }
  }

  lemma LeafHalts(cfg: Config, fuel: nat, ctx: Context, c: Cmd, st: State)
    requires Starts(cfg, st) && Modest(c) && IsLeaf(c)
    ensures Halts(st, Node(cfg, fuel, ctx, c, st), Node(Lenient(cfg), fuel, ctx, c, st), true)
  {
  }

  lemma OperandHalts(cfg: Config, fuel: nat, ctx: Context, c: Cmd, st: State)
    requires Starts(cfg, st) && Modest(c) && (c.AndOr? || c.Not? || c.Time?)
    ensures Halts(st, Node(cfg, fuel + 1, ctx, c, st), Node(Lenient(cfg), fuel + 1, ctx, c, st), false)
    decreases fuel, 3, 0
  {
    var l := if c.AndOr? then c.left else c.cmd;
    ExemptHalts(cfg, fuel, ctx, [l], st);
    var r := Exempt(cfg, fuel, ctx, [l], st);
    if r.out.Done? && c.AndOr? {
      TreeHalts(cfg, fuel, ctx, [c.right], 0, r.st);
    }
  }

  lemma MembersHalts(cfg: Config, fuel: nat, ctx: Context, cs: seq<Cmd>, ret: int, st: State)
    requires Starts(cfg, st) && AllModest(cs) && Fit(ret)
    ensures Halts(st, Members(cfg, fuel, ctx, cs, ret, st), Members(Lenient(cfg), fuel, ctx, cs, ret, st), false)
    decreases fuel, 1, |cs|
  {
    if cs != [] {
      NodeHalts(cfg, fuel, ctx, cs[0], st);
      var x, n := Node(cfg, fuel, ctx, cs[0], st), Node(Lenient(cfg), fuel, ctx, cs[0], st);
      if x.out.Done? {
        var v := x.out.status;
        Statuses(v);
        var xs := x.st.(dollar := Short(v));
        if x.st.failed.None? {
          CheckHalts(cfg, ctx, cs[0], v, xs);
          var q := Check(cfg, ctx, cs[0], v, xs);
          if q.out.Done? {
            MembersHalts(cfg, fuel, ctx, cs[1..], v, q.st);
          }
        }
      }
    }
  }

  /** Nothing fails in what is exempt: both runs are the same there. */
  lemma ExemptHalts(cfg: Config, fuel: nat, ctx: Context, cs: seq<Cmd>, st: State)
    requires Starts(cfg, st) && AllModest(cs)
    ensures Exempt(cfg, fuel, ctx, cs, st) == Exempt(Lenient(cfg), fuel, ctx, cs, st)
    ensures Halts(st, Exempt(cfg, fuel, ctx, cs, st), Exempt(Lenient(cfg), fuel, ctx, cs, st), false)
    ensures Exempt(cfg, fuel, ctx, cs, st).st.failed.None?
    decreases fuel, 2, 0
  {
    TreeHalts(cfg, fuel, ctx.(exempt := true), cs, 0, st);
  }

  lemma BranchHalts(cfg: Config, fuel: nat, ctx: Context, t: seq<Cmd>, y: seq<Cmd>, n: seq<Cmd>, st: State)
    requires Starts(cfg, st) && Modest(If(t, y, n))
    ensures Halts(st, Branch(cfg, fuel, ctx, t, y, n, st), Branch(Lenient(cfg), fuel, ctx, t, y, n, st), false)
    decreases fuel, 3, 0
  {
    ExemptHalts(cfg, fuel, ctx, t, st);
    var r := Exempt(cfg, fuel, ctx, t, st);
    if r.out.Done? {
      if r.out.status == 0 {
        TreeHalts(cfg, fuel, ctx, y, 0, r.st);
      } else if n != [] && IsIf(n[0]) {
        if fuel > 0 {
          ModestIf(n[0]);
          BranchHalts(cfg, fuel - 1, ctx, TheIf(n[0]).test, TheIf(n[0]).yes, TheIf(n[0]).no, r.st);
        }
      } else {
        TreeHalts(cfg, fuel, ctx, n, 0, r.st);
      }
    }
  }

  lemma ModestIf(c: Cmd)
    requires IsIf(c) && Modest(c)
    ensures Modest(TheIf(c))
  {
    if c.Redirected? {
      ModestIf(c.cmd);
    }
  }

  lemma RoundHalts(cfg: Config, fuel: nat, ctx: Context, u: bool, t: seq<Cmd>, d: seq<Cmd>, st: State)
    requires Starts(cfg, st) && AllModest(t) && AllModest(d)
    ensures Halts(st, Round(cfg, fuel, ctx, u, t, d, st).1, Round(Lenient(cfg), fuel, ctx, u, t, d, st).1, false)
    ensures Round(cfg, fuel, ctx, u, t, d, st).0 == Round(Lenient(cfg), fuel, ctx, u, t, d, st).0
    ensures Round(cfg, fuel, ctx, u, t, d, st).0 ==> Round(cfg, fuel, ctx, u, t, d, st).1.st.failed.None?
    decreases fuel, 2, 1
  {
    ExemptHalts(cfg, fuel, ctx, t, st);
    var r := Exempt(cfg, fuel, ctx, t, st);
    if r.out.Done? {
      TreeHalts(cfg, fuel, ctx, d, 0, r.st);
    }
  }

  lemma RepeatHalts(cfg: Config, fuel: nat, ctx: Context, u: bool, t: seq<Cmd>, d: seq<Cmd>, status: int, st: State)
    requires Starts(cfg, st) && AllModest(t) && AllModest(d) && Fit(status)
    ensures Halts(st, Repeat(cfg, fuel, ctx, u, t, d, status, st), Repeat(Lenient(cfg), fuel, ctx, u, t, d, status, st), false)
    decreases fuel, 3, 0
  {
    hide Repeat, Round, AllModest, Strict, Short, Kept;
    RepeatNext(cfg, fuel, ctx, u, t, d, status, st);
    RepeatNext(Lenient(cfg), fuel, ctx, u, t, d, status, st);
    if fuel > 0 {
      var inside := ctx.(loops := ctx.loops + 1);
      RoundHalts(cfg, fuel, inside, u, t, d, st);
      var (ended, r) := Round(cfg, fuel, inside, u, t, d, st);
      if ended {
        Finishes(status, r.st);
      } else if r.st.failed.Some? {
        RepeatGrows(Lenient(cfg), fuel, ctx, u, t, d, status, st);
      } else if r.out.Done? || (r.out.Stop? && r.out.levels <= 1 && r.out.again) {
        var now := if r.out.Done? then r.st.last else if cfg.rolled then 0 else status;
        RepeatHalts(cfg, fuel - 1, ctx, u, t, d, now, r.st);
      } else if r.out.Stop? {
        Finishes(r.st.last, r.st);
      }
    }
  }

  lemma RepeatGrows(cfg: Config, fuel: nat, ctx: Context, u: bool, t: seq<Cmd>, d: seq<Cmd>, status: int, st: State)
    requires fuel > 0
    ensures var r := Round(cfg, fuel, ctx.(loops := ctx.loops + 1), u, t, d, st).1;
            var q := Repeat(cfg, fuel, ctx, u, t, d, status, st);
            r.st.trace <= q.st.trace && (r.st.failed.Some? ==> q.st.failed == r.st.failed)
  {
    hide Round;
  }

  lemma EachHalts(cfg: Config, fuel: nat, ctx: Context, ws: seq<nat>, d: seq<Cmd>, ran: bool, st: State)
    requires Starts(cfg, st) && AllModest(d)
    ensures Halts(st, Each(cfg, fuel, ctx, ws, d, ran, st), Each(Lenient(cfg), fuel, ctx, ws, d, ran, st), false)
    decreases fuel, 3, |ws|, 1
  {
    if ws == [] {
      Finishes(if ran then st.last else 0, st);
    } else {
      RoundsHalt(cfg, fuel, ctx, ws, d, ran, st);
    }
  }

  lemma Finishes(status: int, st: State)
    requires Fit(status) && FitState(st)
    ensures FitState(Finish(status, st).st)
  {
  }

  lemma RoundsHalt(cfg: Config, fuel: nat, ctx: Context, ws: seq<nat>, d: seq<Cmd>, ran: bool, st: State)
    requires Starts(cfg, st) && AllModest(d) && ws != []
    ensures Halts(st, Each(cfg, fuel, ctx, ws, d, ran, st), Each(Lenient(cfg), fuel, ctx, ws, d, ran, st), false)
    decreases fuel, 3, |ws|, 0
  {
    hide Each, Tree, AllModest, Strict, Short, Kept;
    var inside := ctx.(loops := ctx.loops + 1);
    var st1 := st.(trace := st.trace + [Bound(ws[0])]);
    TreeHalts(cfg, fuel, inside, d, 0, st1);
    var r := Tree(cfg, fuel, inside, d, 0, st1);
    EachNext(cfg, fuel, ctx, ws, d, ran, st);
    if r.st.failed.Some? {
      EachGrows(Lenient(cfg), fuel, ctx, ws, d, ran, st);
    } else {
      EachNext(Lenient(cfg), fuel, ctx, ws, d, ran, st);
      if r.out.Done? || (r.out.Stop? && r.out.levels <= 1 && r.out.again) {
        EachHalts(cfg, fuel, ctx, ws[1..], d, ran || r.out.Done?, r.st);
      } else if r.out.Stop? {
        Finishes(if ran then r.st.last else 0, r.st);
      }
    }
  }

  /** The rounds after the first only add to what it did. */
  lemma EachGrows(cfg: Config, fuel: nat, ctx: Context, ws: seq<nat>, d: seq<Cmd>, ran: bool, st: State)
    requires ws != []
    ensures var r := Tree(cfg, fuel, ctx.(loops := ctx.loops + 1), d, 0, st.(trace := st.trace + [Bound(ws[0])]));
            var q := Each(cfg, fuel, ctx, ws, d, ran, st);
            r.st.trace <= q.st.trace && (r.st.failed.Some? ==> q.st.failed == r.st.failed)
  {
    hide Tree;
  }

  lemma FunctionHalts(cfg: Config, fuel: nat, ctx: Context, f: nat, st: State)
    requires Starts(cfg, st) && f < |cfg.fns|
    ensures Halts(st, Function(cfg, fuel, ctx, f, st), Function(Lenient(cfg), fuel, ctx, f, st), true)
    decreases fuel, 3, 0
  {
    hide Node, Short, Returned;
    var at := ctx.at.(vars := ctx.at.vars + [st.serial]);
    var inside := Context(at, 0, false, true, ctx.exempt);
    var st1 := st.(serial := st.serial + 1, dollar := 0, last := 0);
    NodeHalts(cfg, fuel, inside, cfg.fns[f], st1);
    Arrives(Node(cfg, fuel, inside, cfg.fns[f], st1));
    Arrives(Node(Lenient(cfg), fuel, inside, cfg.fns[f], st1));
  }

  lemma InnerHalts(cfg: Config, fuel: nat, ctx: Context, cs: seq<Cmd>, st: State)
    requires Starts(cfg, st) && AllModest(cs)
    ensures Halts(st, Inner(cfg, fuel, ctx, cs, st), Inner(Lenient(cfg), fuel, ctx, cs, st), true)
    decreases fuel, 3, 0
  {
    hide Tree, AllModest, Strict, Short, Returned, Exited;
    var at := ctx.at.(fds := ctx.at.fds + [st.serial], vars := ctx.at.vars + [st.serial + 1]);
    var inside := Context(at, 0, false, true, ctx.exempt);
    var st1 := st.(serial := st.serial + 2, last := 0);
    TreeHalts(cfg, fuel, inside, cs, 0, st1);
    Arrives(Tree(cfg, fuel, inside, cs, 0, st1));
    Arrives(Tree(Lenient(cfg), fuel, inside, cs, 0, st1));
  }

  lemma LinesHalts(cfg: Config, fuel: nat, ctx: Context, ls: seq<Cmd>, st: State)
    requires Starts(cfg, st) && AllModest(ls)
    ensures Halts(st, Lines(cfg, fuel, ctx, ls, st), Lines(Lenient(cfg), fuel, ctx, ls, st), false)
    decreases fuel, 2, |ls|
  {
    if ls != [] {
      TreeHalts(cfg, fuel, ctx, [ls[0]], 0, st);
      var r := Tree(cfg, fuel, ctx, [ls[0]], 0, st);
      if r.out.Done? {
        LinesHalts(cfg, fuel, ctx, ls[1..], r.st);
      }
    }
  }

  lemma EvaluatedHalts(cfg: Config, fuel: nat, ctx: Context, ls: seq<Cmd>, st: State)
    requires Starts(cfg, st) && AllModest(ls)
    ensures Halts(st, Evaluated(cfg, fuel, ctx, ls, st), Evaluated(Lenient(cfg), fuel, ctx, ls, st), true)
    decreases fuel, 3, 0
  {
    var at := ctx.at.(srcs := ctx.at.srcs + [st.serial]);
    LinesHalts(cfg, fuel, ctx.(at := at), ls, st.(serial := st.serial + 1, last := 0));
  }

  lemma ScriptHalts(cfg: Config, fuel: nat, ctx: Context, ls: seq<Cmd>, st: State)
    requires Starts(cfg, st) && AllModest(ls)
    ensures Halts(st, Script(cfg, fuel, ctx, ls, st), Script(Lenient(cfg), fuel, ctx, ls, st), false)
    decreases fuel, 2, |ls|
  {
    if ls != [] {
      TreeHalts(cfg, fuel, ctx, [ls[0]], 0, st.(last := 0));
      var r := Tree(cfg, fuel, ctx, [ls[0]], 0, st.(last := 0));
      if r.out.Done? {
        ScriptHalts(cfg, fuel, ctx, ls[1..], r.st.(last := st.last, dollar := Short(r.st.last)));
      }
    }
  }

  lemma FileHalts(cfg: Config, fuel: nat, ctx: Context, ls: seq<Cmd>, st: State)
    requires Starts(cfg, st) && AllModest(ls)
    ensures Halts(st, File(cfg, fuel, ctx, ls, st), File(Lenient(cfg), fuel, ctx, ls, st), true)
    decreases fuel, 3, 0
  {
    hide Script, AllModest, Strict, Short, Returned, Exited;
    var at := ctx.at.(srcs := ctx.at.srcs + [st.serial]);
    var inside := Context(at, 0, true, true, ctx.exempt);
    var st1 := st.(serial := st.serial + 1, last := 0);
    ScriptHalts(cfg, fuel, inside, ls, st1);
    Arrives(Script(cfg, fuel, inside, ls, st1));
    Arrives(Script(Lenient(cfg), fuel, inside, ls, st1));
  }

  /** A whole script. Where nothing fails outside what is exempt, "set -e" makes no difference;
      otherwise the shell ends with a failure, having run what it runs without "set -e" up to and
      with the first command that failed, and nothing more. */
  lemma StopsAtFirstFailure(cfg: Config, fuel: nat, lines: seq<Cmd>)
    requires Strict(cfg) && AllModest(lines)
    ensures var x, n := Main(cfg, fuel, lines), Main(Lenient(cfg), fuel, lines);
            && x.st.failed == n.st.failed
            && (x.st.failed.None? ==> x == n)
            && (x.st.failed.Some? ==>
                  && x.out.Quit? && x.out.code != 0
                  && x.st.failed.value <= |n.st.trace| && x.st.trace == n.st.trace[..x.st.failed.value])
  {
    ScriptHalts(cfg, fuel, Context(Stacks([], [], []), 0, false, false, false), lines, State([], 0, 0, 0, 0, None));
  }
}
