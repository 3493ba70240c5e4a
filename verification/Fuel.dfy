/** The fuel of the evaluator decides only whether a run comes to its end, not where it ends: a run
    that does not get stuck is the same run with any more fuel. */
module Fuel {
  import opened Wrappers
  import opened Commands

  predicate Settled(r: Result, q: Result) { r.out.Stuck? || q == r }

  lemma MoreNode(cfg: Config, fuel: nat, ctx: Context, c: Cmd, st: State)
    ensures Settled(Node(cfg, fuel, ctx, c, st), Node(cfg, fuel + 1, ctx, c, st))
    decreases fuel, 0, 0
  {
    hide Tree, Members, Exempt, Branch, Repeat, Each, Function, Inner, Evaluated, File, Leap, Finish;
    if fuel > 0 {
      match c
      case Group(cs) => MoreMembers(cfg, fuel - 1, ctx, cs, 0, st);
      case If(test, yes, no) => MoreBranch(cfg, fuel - 1, ctx, test, yes, no, st);
      case Loop(until, test, body) => MoreRepeat(cfg, fuel - 1, ctx, until, test, body, 0, st);
      case For(words, body) => MoreEach(cfg, fuel - 1, ctx, words, body, false, st);
      case AndOr(or, left, right) =>
        MoreExempt(cfg, fuel - 1, ctx, [left], st);
        MoreTree(cfg, fuel - 1, ctx, [right], 0, Exempt(cfg, fuel - 1, ctx, [left], st).st);
      case Not(d) => MoreExempt(cfg, fuel - 1, ctx, [d], st);
      case Time(d) => MoreExempt(cfg, fuel - 1, ctx, [d], st);
      case Call(f) => if f < |cfg.fns| { MoreFunction(cfg, fuel - 1, ctx, f, st); }
      case Subshell(cs) => MoreInner(cfg, fuel - 1, ctx, cs, st);
      case Eval(lines) => MoreEvaluated(cfg, fuel - 1, ctx, lines, st);
      case Source(lines) => MoreFile(cfg, fuel - 1, ctx, lines, st);
      case Redirected(_, d) =>
        MoreNode(cfg, fuel - 1, ctx.(at := ctx.at.(fds := ctx.at.fds + [st.serial])), d, st.(serial := st.serial + 1));
      case _ =>
    }
  }

  lemma MoreTree(cfg: Config, fuel: nat, ctx: Context, cs: seq<Cmd>, ret: int, st: State)
    ensures Settled(Tree(cfg, fuel, ctx, cs, ret, st), Tree(cfg, fuel + 1, ctx, cs, ret, st))
    decreases fuel, 1, |cs|
  {
    hide Node, Check;
    if cs != [] {
      MoreNode(cfg, fuel, ctx, cs[0], st);
      var r := Node(cfg, fuel, ctx, cs[0], st);
      if r.out.Done? {
        var q := Check(cfg, ctx, cs[0], r.out.status, r.st.(last := Short(r.out.status)));
        MoreTree(cfg, fuel, ctx, cs[1..], r.out.status, q.st);
      }
    }
  }

  lemma MoreMembers(cfg: Config, fuel: nat, ctx: Context, cs: seq<Cmd>, ret: int, st: State)
    ensures Settled(Members(cfg, fuel, ctx, cs, ret, st), Members(cfg, fuel + 1, ctx, cs, ret, st))
    decreases fuel, 1, |cs|
  {
    hide Node, Check;
    if cs != [] {
      MoreNode(cfg, fuel, ctx, cs[0], st);
      var r := Node(cfg, fuel, ctx, cs[0], st);
      if r.out.Done? {
        var q := Check(cfg, ctx, cs[0], r.out.status, r.st.(dollar := Short(r.out.status)));
        MoreMembers(cfg, fuel, ctx, cs[1..], r.out.status, q.st);
      }
    }
  }

  lemma MoreExempt(cfg: Config, fuel: nat, ctx: Context, cs: seq<Cmd>, st: State)
    ensures Settled(Exempt(cfg, fuel, ctx, cs, st), Exempt(cfg, fuel + 1, ctx, cs, st))
    decreases fuel, 2, 0
  {
    hide Tree;
    MoreTree(cfg, fuel, ctx.(exempt := true), cs, 0, st);
    MoreTree(cfg, fuel, ctx, cs, 0, st.(suppress := st.suppress + 1));
  }

  lemma MoreBranch(cfg: Config, fuel: nat, ctx: Context, test: seq<Cmd>, yes: seq<Cmd>, no: seq<Cmd>, st: State)
    ensures Settled(Branch(cfg, fuel, ctx, test, yes, no, st), Branch(cfg, fuel + 1, ctx, test, yes, no, st))
    decreases fuel, 3, 0
  {
    hide Tree, Exempt;
    MoreExempt(cfg, fuel, ctx, test, st);
    var r := Exempt(cfg, fuel, ctx, test, st);
    MoreTree(cfg, fuel, ctx, yes, 0, r.st);
    MoreTree(cfg, fuel, ctx, no, 0, r.st);
    if fuel > 0 && no != [] && IsIf(no[0]) {
      MoreBranch(cfg, fuel - 1, ctx, TheIf(no[0]).test, TheIf(no[0]).yes, TheIf(no[0]).no, r.st);
    }
  }

  lemma MoreRound(cfg: Config, fuel: nat, ctx: Context, until: bool, test: seq<Cmd>, body: seq<Cmd>, st: State)
    ensures var (a, b) := (Round(cfg, fuel, ctx, until, test, body, st), Round(cfg, fuel + 1, ctx, until, test, body, st));
            a.1.out.Stuck? || a == b
    decreases fuel, 2, 1
  {
    hide Tree, Exempt;
    MoreExempt(cfg, fuel, ctx, test, st);
    MoreTree(cfg, fuel, ctx, body, 0, Exempt(cfg, fuel, ctx, test, st).st);
  }

  lemma MoreRepeat(cfg: Config, fuel: nat, ctx: Context, until: bool, test: seq<Cmd>, body: seq<Cmd>, status: int, st: State)
    ensures Settled(Repeat(cfg, fuel, ctx, until, test, body, status, st),
                    Repeat(cfg, fuel + 1, ctx, until, test, body, status, st))
    decreases fuel, 3, 0
  {
    hide Round, Finish;
    if fuel > 0 {
      var inside := ctx.(loops := ctx.loops + 1);
      MoreRound(cfg, fuel, inside, until, test, body, st);
      var r := Round(cfg, fuel, inside, until, test, body, st).1;
      MoreRepeat(cfg, fuel - 1, ctx, until, test, body, r.st.last, r.st);
      MoreRepeat(cfg, fuel - 1, ctx, until, test, body, if cfg.rolled then 0 else status, r.st);
    }
  }

  lemma MoreEach(cfg: Config, fuel: nat, ctx: Context, words: seq<nat>, body: seq<Cmd>, ran: bool, st: State)
    ensures Settled(Each(cfg, fuel, ctx, words, body, ran, st), Each(cfg, fuel + 1, ctx, words, body, ran, st))
    decreases fuel, 3, |words|
  {
    hide Tree, Finish;
    if words != [] {
      var inside, now := ctx.(loops := ctx.loops + 1), st.(trace := st.trace + [Bound(words[0])]);
      MoreTree(cfg, fuel, inside, body, 0, now);
      var r := Tree(cfg, fuel, inside, body, 0, now);
      MoreEach(cfg, fuel, ctx, words[1..], body, true, r.st);
      MoreEach(cfg, fuel, ctx, words[1..], body, ran, r.st);
    }
  }

  lemma MoreFunction(cfg: Config, fuel: nat, ctx: Context, f: nat, st: State)
    requires f < |cfg.fns|
    ensures Settled(Function(cfg, fuel, ctx, f, st), Function(cfg, fuel + 1, ctx, f, st))
    decreases fuel, 3, 0
  {
    hide Node, Finish;
    var inside := Context(ctx.at.(vars := ctx.at.vars + [st.serial]), 0, false, true, ctx.exempt);
    MoreNode(cfg, fuel, inside, cfg.fns[f], st.(serial := st.serial + 1, dollar := 0, last := 0));
  }

  lemma MoreInner(cfg: Config, fuel: nat, ctx: Context, cs: seq<Cmd>, st: State)
    ensures Settled(Inner(cfg, fuel, ctx, cs, st), Inner(cfg, fuel + 1, ctx, cs, st))
    decreases fuel, 3, 0
  {
    hide Tree, Finish;
    var at := ctx.at.(fds := ctx.at.fds + [st.serial], vars := ctx.at.vars + [st.serial + 1]);
    MoreTree(cfg, fuel, Context(at, 0, false, true, ctx.exempt), cs, 0, st.(serial := st.serial + 2, last := 0));
  }

  lemma MoreLines(cfg: Config, fuel: nat, ctx: Context, lines: seq<Cmd>, st: State)
    ensures Settled(Lines(cfg, fuel, ctx, lines, st), Lines(cfg, fuel + 1, ctx, lines, st))
    decreases fuel, 2, |lines|
  {
    hide Tree;
    if lines != [] {
      MoreTree(cfg, fuel, ctx, [lines[0]], 0, st);
      MoreLines(cfg, fuel, ctx, lines[1..], Tree(cfg, fuel, ctx, [lines[0]], 0, st).st);
    }
  }

  lemma MoreEvaluated(cfg: Config, fuel: nat, ctx: Context, lines: seq<Cmd>, st: State)
    ensures Settled(Evaluated(cfg, fuel, ctx, lines, st), Evaluated(cfg, fuel + 1, ctx, lines, st))
    decreases fuel, 3, 0
  {
    hide Lines, Finish;
    var at := ctx.at.(srcs := ctx.at.srcs + [st.serial]);
    MoreLines(cfg, fuel, ctx.(at := at), lines, st.(serial := st.serial + 1, last := 0));
  }

  lemma MoreScript(cfg: Config, fuel: nat, ctx: Context, lines: seq<Cmd>, st: State)
    ensures Settled(Script(cfg, fuel, ctx, lines, st), Script(cfg, fuel + 1, ctx, lines, st))
    decreases fuel, 2, |lines|
  {
    hide Tree;
    if lines != [] {
      MoreTree(cfg, fuel, ctx, [lines[0]], 0, st.(last := 0));
      var r := Tree(cfg, fuel, ctx, [lines[0]], 0, st.(last := 0));
      MoreScript(cfg, fuel, ctx, lines[1..], r.st.(last := st.last, dollar := Short(r.st.last)));
    }
  }

  lemma MoreFile(cfg: Config, fuel: nat, ctx: Context, lines: seq<Cmd>, st: State)
    ensures Settled(File(cfg, fuel, ctx, lines, st), File(cfg, fuel + 1, ctx, lines, st))
    decreases fuel, 3, 0
  {
    hide Script, Finish, Leap;
    var at := ctx.at.(srcs := ctx.at.srcs + [st.serial]);
    MoreScript(cfg, fuel, Context(at, 0, true, true, ctx.exempt), lines, st.(serial := st.serial + 1, last := 0));
  }

  /** A whole script ends in at most one way, whatever the fuel. */
  lemma {:induction false} EndsOneWay(cfg: Config, less: nat, more: nat, lines: seq<Cmd>)
    requires less <= more
    ensures Main(cfg, less, lines).out.Stuck? || Main(cfg, more, lines) == Main(cfg, less, lines)
    decreases more
  {
    if less < more {
      EndsOneWay(cfg, less, more - 1, lines);
      MoreScript(cfg, more - 1, Context(Stacks([], [], []), 0, false, false, false), lines, State([], 0, 0, 0, 0, None));
    }
  }
}
