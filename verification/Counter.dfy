/** The "set -e" counter of a run, whatever the program: it never comes back lower, and where it comes
    back as it was the run was the one POSIX asks for. */
module Counter {
  import opened Wrappers
  import opened Commands
  import E = ErrExit
  import F = FirstFailure
  import opened Frames
  import opened Evaluator

  /** The same place and state, counted and by place. */
  predicate Pair(cfg: Config, a: Context, b: Context, st: State, su: State) {
    && !cfg.scoped && a == b.(exempt := a.exempt) && su == st.(suppress := su.suppress)
    && st.suppress >= 0 && b.exempt == (st.suppress > 0)
  }

  /** If the counter is back, the two runs did and came to the same. */
  predicate Back(st: State, su: State, x: Result, q: Result) {
    x.st.suppress == st.suppress ==> q == x.(st := x.st.(suppress := su.suppress))
  }

  function Scoped(cfg: Config): Config { E.Scoped(cfg) }

  lemma NodeBack(cfg: Config, fuel: nat, a: Context, b: Context, c: Cmd, st: State, su: State)
    requires Pair(cfg, a, b, st, su)
    ensures Back(st, su, Node(cfg, fuel, a, c, st), Node(Scoped(cfg), fuel, b, c, su))
    decreases fuel, 0, 0
  {
    hide Tree, Members, Exempt, Branch, Repeat, Each, Function, Inner, Evaluated, File, Short, Leap;
    if fuel > 0 {
      match c
      case Group(cs) => MembersBack(cfg, fuel - 1, a, b, cs, 0, st, su);
      case If(test, yes, no) => BranchBack(cfg, fuel - 1, a, b, test, yes, no, st, su);
      case Loop(until, test, body) => RepeatBack(cfg, fuel - 1, a, b, until, test, body, 0, st, su);
      case For(words, body) => EachBack(cfg, fuel - 1, a, b, words, body, false, st, su);
      case AndOr(_, _, _) => AndOrBack(cfg, fuel - 1, a, b, c, st, su);
      case Not(d) => ExemptBack(cfg, fuel - 1, a, b, [d], st, su);
      case Time(d) => ExemptBack(cfg, fuel - 1, a, b, [d], st, su);
      case Call(f) => if f < |cfg.fns| { FunctionBack(cfg, fuel - 1, a, b, f, st, su); }
      case Subshell(cs) => InnerBack(cfg, fuel - 1, a, b, cs, st, su);
      case Eval(lines) => EvaluatedBack(cfg, fuel - 1, a, b, lines, st, su);
      case Source(lines) => FileBack(cfg, fuel - 1, a, b, lines, st, su);
      case Redirected(_, d) => RedirectedBack(cfg, fuel - 1, a, b, c, st, su);
      case _ => LeafBack(cfg, fuel, a, b, c, st, su);
    }
  }

  lemma LeafBack(cfg: Config, fuel: nat, a: Context, b: Context, c: Cmd, st: State, su: State)
    requires Pair(cfg, a, b, st, su) && IsLeaf(c)
    ensures Back(st, su, Node(cfg, fuel, a, c, st), Node(Scoped(cfg), fuel, b, c, su))
  {
  }

  lemma RedirectedBack(cfg: Config, fuel: nat, a: Context, b: Context, c: Cmd, st: State, su: State)
    requires Pair(cfg, a, b, st, su) && c.Redirected?
    ensures Back(st, su, Node(cfg, fuel + 1, a, c, st), Node(Scoped(cfg), fuel + 1, b, c, su))
    decreases fuel, 3, 0
  {
    var at := a.at.(fds := a.at.fds + [st.serial]);
    var next := st.serial + 1;
    NodeBack(cfg, fuel, a.(at := at), b.(at := at), c.cmd, st.(serial := next), su.(serial := next));
  }

  lemma AndOrBack(cfg: Config, fuel: nat, a: Context, b: Context, c: Cmd, st: State, su: State)
    requires Pair(cfg, a, b, st, su) && c.AndOr?
    ensures Back(st, su, Node(cfg, fuel + 1, a, c, st), Node(Scoped(cfg), fuel + 1, b, c, su))
    decreases fuel, 3, 0
  {
    hide Tree, Exempt;
    ExemptBack(cfg, fuel, a, b, [c.left], st, su);
    var r, q := Exempt(cfg, fuel, a, [c.left], st), Exempt(Scoped(cfg), fuel, b, [c.left], su);
    if r.st.suppress == st.suppress {
      TreeBack(cfg, fuel, a, b, [c.right], 0, r.st, q.st);
    }
  }

  lemma TreeBack(cfg: Config, fuel: nat, a: Context, b: Context, cs: seq<Cmd>, ret: int, st: State, su: State)
    requires Pair(cfg, a, b, st, su)
    ensures Back(st, su, Tree(cfg, fuel, a, cs, ret, st), Tree(Scoped(cfg), fuel, b, cs, ret, su))
    decreases fuel, 1, |cs|
  {
    hide Node;
    if cs != [] {
      NodeBack(cfg, fuel, a, b, cs[0], st, su);
      var r, q := Node(cfg, fuel, a, cs[0], st), Node(Scoped(cfg), fuel, b, cs[0], su);
      if r.out.Done? && r.st.suppress == st.suppress {
        var x := Check(cfg, a, cs[0], r.out.status, r.st.(last := Short(r.out.status)));
        var y := Check(Scoped(cfg), b, cs[0], q.out.status, q.st.(last := Short(q.out.status)));
        if x.out.Done? {
          TreeBack(cfg, fuel, a, b, cs[1..], r.out.status, x.st, y.st);
        }
      }
    }
  }

  lemma MembersBack(cfg: Config, fuel: nat, a: Context, b: Context, cs: seq<Cmd>, ret: int, st: State, su: State)
    requires Pair(cfg, a, b, st, su)
    ensures Back(st, su, Members(cfg, fuel, a, cs, ret, st), Members(Scoped(cfg), fuel, b, cs, ret, su))
    decreases fuel, 1, |cs|
  {
    hide Node;
    if cs != [] {
      NodeBack(cfg, fuel, a, b, cs[0], st, su);
      var r, q := Node(cfg, fuel, a, cs[0], st), Node(Scoped(cfg), fuel, b, cs[0], su);
      if r.out.Done? && r.st.suppress == st.suppress {
        var x := Check(cfg, a, cs[0], r.out.status, r.st.(dollar := Short(r.out.status)));
        var y := Check(Scoped(cfg), b, cs[0], q.out.status, q.st.(dollar := Short(q.out.status)));
        if x.out.Done? {
          MembersBack(cfg, fuel, a, b, cs[1..], r.out.status, x.st, y.st);
        }
      }
    }
  }

  /** A jump out of an exempt part leaves the counter higher; otherwise it is counted back. */
  lemma ExemptBack(cfg: Config, fuel: nat, a: Context, b: Context, cs: seq<Cmd>, st: State, su: State)
    requires Pair(cfg, a, b, st, su)
    ensures Back(st, su, Exempt(cfg, fuel, a, cs, st), Exempt(Scoped(cfg), fuel, b, cs, su))
    ensures !Exempt(cfg, fuel, a, cs, st).out.Done? ==> Exempt(cfg, fuel, a, cs, st).st.suppress > st.suppress
    decreases fuel, 2, 0
  {
    hide Tree;
    TreeBack(cfg, fuel, a, b.(exempt := true), cs, 0, st.(suppress := st.suppress + 1), su);
  }

  lemma BranchBack(cfg: Config, fuel: nat, a: Context, b: Context, test: seq<Cmd>, yes: seq<Cmd>, no: seq<Cmd>, st: State, su: State)
    requires Pair(cfg, a, b, st, su)
    ensures Back(st, su, Branch(cfg, fuel, a, test, yes, no, st), Branch(Scoped(cfg), fuel, b, test, yes, no, su))
    decreases fuel, 3, 0
  {
    hide Tree, Exempt;
    ExemptBack(cfg, fuel, a, b, test, st, su);
    var r, q := Exempt(cfg, fuel, a, test, st), Exempt(Scoped(cfg), fuel, b, test, su);
    if r.out.Done? && r.st.suppress == st.suppress {
      if r.out.status == 0 {
        TreeBack(cfg, fuel, a, b, yes, 0, r.st, q.st);
      } else if no != [] && IsIf(no[0]) {
        if fuel > 0 {
          var i := TheIf(no[0]);
          BranchBack(cfg, fuel - 1, a, b, i.test, i.yes, i.no, r.st, q.st);
        }
      } else {
        TreeBack(cfg, fuel, a, b, no, 0, r.st, q.st);
      }
    }
  }

  lemma RoundBack(cfg: Config, fuel: nat, a: Context, b: Context, until: bool, test: seq<Cmd>, body: seq<Cmd>, st: State, su: State)
    requires Pair(cfg, a, b, st, su)
    ensures var x, q := Round(cfg, fuel, a, until, test, body, st), Round(Scoped(cfg), fuel, b, until, test, body, su);
            Back(st, su, x.1, q.1) && (x.1.st.suppress == st.suppress ==> x.0 == q.0)
    decreases fuel, 2, 1
  {
    hide Tree, Exempt;
    ExemptBack(cfg, fuel, a, b, test, st, su);
    var r, q := Exempt(cfg, fuel, a, test, st), Exempt(Scoped(cfg), fuel, b, test, su);
    if r.out.Done? && r.st.suppress == st.suppress {
      TreeBack(cfg, fuel, a, b, body, 0, r.st, q.st);
    }
  }

  lemma RepeatBack(cfg: Config, fuel: nat, a: Context, b: Context, until: bool, test: seq<Cmd>, body: seq<Cmd>, status: int,
    st: State, su: State)
    requires Pair(cfg, a, b, st, su)
    ensures Back(st, su, Repeat(cfg, fuel, a, until, test, body, status, st), Repeat(Scoped(cfg), fuel, b, until, test, body, status, su))
    decreases fuel, 3, 0
  {
    hide Repeat, Round, Short;
    var ia, ib := a.(loops := a.loops + 1), b.(loops := b.loops + 1);
    RepeatNext(cfg, fuel, a, until, test, body, status, st);
    RepeatNext(Scoped(cfg), fuel, b, until, test, body, status, su);
    if fuel > 0 {
      RoundBack(cfg, fuel, ia, ib, until, test, body, st, su);
      var r, q := Round(cfg, fuel, ia, until, test, body, st).1, Round(Scoped(cfg), fuel, ib, until, test, body, su).1;
      if r.st.suppress == st.suppress {
        var now := if r.out.Done? then r.st.last else if cfg.rolled then 0 else status;
        RepeatBack(cfg, fuel - 1, a, b, until, test, body, now, r.st, q.st);
      }
    }
  }

  lemma EachBack(cfg: Config, fuel: nat, a: Context, b: Context, words: seq<nat>, body: seq<Cmd>, ran: bool, st: State, su: State)
    requires Pair(cfg, a, b, st, su)
    ensures Back(st, su, Each(cfg, fuel, a, words, body, ran, st), Each(Scoped(cfg), fuel, b, words, body, ran, su))
    decreases fuel, 3, |words|
  {
    hide Each, Tree, Short;
    if words == [] {
      EachNone(cfg, fuel, a, body, ran, st);
      EachNone(Scoped(cfg), fuel, b, body, ran, su);
    } else {
      EachNext(cfg, fuel, a, words, body, ran, st);
      EachNext(Scoped(cfg), fuel, b, words, body, ran, su);
      var ia, ib := a.(loops := a.loops + 1), b.(loops := b.loops + 1);
      var now := st.trace + [Bound(words[0])];
      TreeBack(cfg, fuel, ia, ib, body, 0, st.(trace := now), su.(trace := now));
      var r := Tree(cfg, fuel, ia, body, 0, st.(trace := now));
      var q := Tree(Scoped(cfg), fuel, ib, body, 0, su.(trace := now));
      if r.st.suppress == st.suppress {
        EachBack(cfg, fuel, a, b, words[1..], body, ran || r.out.Done?, r.st, q.st);
      }
    }
  }

  lemma FunctionBack(cfg: Config, fuel: nat, a: Context, b: Context, f: nat, st: State, su: State)
    requires Pair(cfg, a, b, st, su) && f < |cfg.fns|
    ensures Back(st, su, Function(cfg, fuel, a, f, st), Function(Scoped(cfg), fuel, b, f, su))
    decreases fuel, 3, 0
  {
    hide Node, Short, Returned;
    var at := a.at.(vars := a.at.vars + [st.serial]);
    var next := st.serial + 1;
    NodeBack(cfg, fuel, Context(at, 0, false, true, a.exempt), Context(at, 0, false, true, b.exempt), cfg.fns[f],
      st.(serial := next, dollar := 0, last := 0), su.(serial := next, dollar := 0, last := 0));
  }

  lemma InnerBack(cfg: Config, fuel: nat, a: Context, b: Context, cs: seq<Cmd>, st: State, su: State)
    requires Pair(cfg, a, b, st, su)
    ensures Back(st, su, Inner(cfg, fuel, a, cs, st), Inner(Scoped(cfg), fuel, b, cs, su))
    decreases fuel, 3, 0
  {
    hide Tree, Short, Returned, Exited;
    var at := a.at.(fds := a.at.fds + [st.serial], vars := a.at.vars + [st.serial + 1]);
    var next := st.serial + 2;
    TreeBack(cfg, fuel, Context(at, 0, false, true, a.exempt), Context(at, 0, false, true, b.exempt), cs, 0,
      st.(serial := next, last := 0), su.(serial := next, last := 0));
  }

  lemma LinesBack(cfg: Config, fuel: nat, a: Context, b: Context, lines: seq<Cmd>, st: State, su: State)
    requires Pair(cfg, a, b, st, su)
    ensures Back(st, su, Lines(cfg, fuel, a, lines, st), Lines(Scoped(cfg), fuel, b, lines, su))
    decreases fuel, 2, |lines|
  {
    hide Tree;
    if lines != [] {
      TreeBack(cfg, fuel, a, b, [lines[0]], 0, st, su);
      var r, q := Tree(cfg, fuel, a, [lines[0]], 0, st), Tree(Scoped(cfg), fuel, b, [lines[0]], 0, su);
      if r.st.suppress == st.suppress {
        LinesBack(cfg, fuel, a, b, lines[1..], r.st, q.st);
      }
    }
  }

  lemma EvaluatedBack(cfg: Config, fuel: nat, a: Context, b: Context, lines: seq<Cmd>, st: State, su: State)
    requires Pair(cfg, a, b, st, su)
    ensures Back(st, su, Evaluated(cfg, fuel, a, lines, st), Evaluated(Scoped(cfg), fuel, b, lines, su))
    decreases fuel, 3, 0
  {
    hide Lines, Short, Returned, Exited;
    var at := a.at.(srcs := a.at.srcs + [st.serial]);
    var next := st.serial + 1;
    LinesBack(cfg, fuel, a.(at := at), b.(at := at), lines, st.(serial := next, last := 0), su.(serial := next, last := 0));
  }

  lemma ScriptBack(cfg: Config, fuel: nat, a: Context, b: Context, lines: seq<Cmd>, st: State, su: State)
    requires Pair(cfg, a, b, st, su)
    ensures Back(st, su, Script(cfg, fuel, a, lines, st), Script(Scoped(cfg), fuel, b, lines, su))
    decreases fuel, 2, |lines|
  {
    hide Tree;
    if lines != [] {
      TreeBack(cfg, fuel, a, b, [lines[0]], 0, st.(last := 0), su.(last := 0));
      var r, q := Tree(cfg, fuel, a, [lines[0]], 0, st.(last := 0)), Tree(Scoped(cfg), fuel, b, [lines[0]], 0, su.(last := 0));
      if r.st.suppress == st.suppress {
        var d := Short(r.st.last);
        ScriptBack(cfg, fuel, a, b, lines[1..], r.st.(last := st.last, dollar := d), q.st.(last := st.last, dollar := d));
      }
    }
  }

  lemma FileBack(cfg: Config, fuel: nat, a: Context, b: Context, lines: seq<Cmd>, st: State, su: State)
    requires Pair(cfg, a, b, st, su)
    ensures Back(st, su, File(cfg, fuel, a, lines, st), File(Scoped(cfg), fuel, b, lines, su))
    decreases fuel, 3, 0
  {
    hide Script, Short, Returned, Exited;
    var at := a.at.(srcs := a.at.srcs + [st.serial]);
    var next := st.serial + 1;
    ScriptBack(cfg, fuel, Context(at, 0, true, true, a.exempt), Context(at, 0, true, true, b.exempt), lines,
      st.(serial := next, last := 0), su.(serial := next, last := 0));
  }

  /** Any script: if the counter is 0 at the end, the run was the one in which the exemption goes by
      place; otherwise the counter is positive. */
  lemma ZeroAtTheEnd(cfg: Config, fuel: nat, lines: seq<Cmd>)
    requires !cfg.scoped
    ensures Main(cfg, fuel, lines).st.suppress >= 0
    ensures Main(cfg, fuel, lines).st.suppress == 0 ==> Main(cfg, fuel, lines) == Main(Scoped(cfg), fuel, lines)
  {
    var ctx, st := Context(Stacks([], [], []), 0, false, false, false), State([], 0, 0, 0, 0, None);
    ScriptBack(cfg, fuel, ctx, ctx, lines, st, st);
  }

  /** "set -e" on the counter: where the runs with and without it end with the counter at 0, the shell
      has run what it runs without "set -e" up to and with the first command that failed outside what
      is exempt, and ends with a failure; or nothing failed there and it has run everything. */
  lemma StopsWithTheCounter(cfg: Config, fuel: nat, lines: seq<Cmd>)
    requires !cfg.scoped && F.Strict(Scoped(cfg)) && F.AllModest(lines)
    requires Main(cfg, fuel, lines).st.suppress == 0 == Main(F.Lenient(cfg), fuel, lines).st.suppress
    ensures var x, n := Main(cfg, fuel, lines), Main(F.Lenient(cfg), fuel, lines);
            && x.st.failed == n.st.failed
            && (x.st.failed.None? ==> x == n)
            && (x.st.failed.Some? ==>
                  && x.out.Quit? && x.out.code != 0
                  && x.st.failed.value <= |n.st.trace| && x.st.trace == n.st.trace[..x.st.failed.value])
  {
    ZeroAtTheEnd(cfg, fuel, lines);
    ZeroAtTheEnd(F.Lenient(cfg), fuel, lines);
    F.StopsAtFirstFailure(Scoped(cfg), fuel, lines);
  }

  /** The same of all programs in which no jump that lands leaves an exempt part. */
  lemma ContainedStops(cfg: Config, fuel: nat, lines: seq<Cmd>, exits: E.Exits)
    requires !cfg.scoped && F.Strict(Scoped(cfg)) && F.AllModest(lines)
    requires E.Tame(cfg.fns, exits.fns) && E.AllContained(lines, exits)
    ensures var x, n := Main(cfg, fuel, lines), Main(F.Lenient(cfg), fuel, lines);
            var failed := Main(Scoped(F.Lenient(cfg)), fuel, lines).st.failed;
            && (failed.None? ==> x.out == n.out && x.st.trace == n.st.trace)
            && (failed.Some? ==>
                  && x.out.Quit? && x.out.code != 0
                  && failed.value <= |n.st.trace| && x.st.trace == n.st.trace[..failed.value])
            && x.st.failed == n.st.failed == failed
  {
    E.CounterIsScope(cfg, fuel, lines, exits);
    E.CounterIsScope(F.Lenient(cfg), fuel, lines, exits);
    F.StopsAtFirstFailure(Scoped(cfg), fuel, lines);
  }

  /** The shell itself, with and without "set -e": it ends as it does without, or with a failure, having
      run what it runs without up to the first failure outside what is exempt. */
  method RunBoth(cfg: Config, fuel: nat, lines: seq<Cmd>, ghost exits: E.Exits)
    returns (s: Signal, trace: seq<Event>, s': Signal, trace': seq<Event>)
    requires !cfg.scoped && F.Strict(Scoped(cfg)) && F.AllModest(lines)
    requires E.Tame(cfg.fns, exits.fns) && E.AllContained(lines, exits)
    ensures var failed := Main(Scoped(F.Lenient(cfg)), fuel, lines).st.failed;
            && (failed.None? ==> s == s' && trace == trace')
            && (failed.Some? ==>
                  s.Halted? && s.code != 0 && failed.value <= |trace'| && trace == trace'[..failed.value])
  {
    ContainedStops(cfg, fuel, lines, exits);
    s, trace := Shell.Run(cfg, fuel, lines);
    s', trace' := Shell.Run(cfg.(errexit := false), fuel, lines);
  }
}
