/** Single constructs of the evaluator: where they do what POSIX asks for, and where not. */
module EvalLaws {
  import opened Wrappers
  import opened Commands
  import opened ErrExit

  /** Return and exit carry their status through longjmp as an int shifted by one: what lands is
      what was sent exactly if it fits in 31 bits. */
  lemma StatusSurvives(v: int)
    ensures Returned(v) == v <==> -0x4000_0000 <= v < 0x4000_0000
    ensures Exited(v) == v <==> -0x4000_0000 <= v < 0x4000_0000
  {
  }

  /** No signed status lands as the 0 of a first return from setjmp. */
  lemma LandingIsSeen(x: int)
    ensures Landing(x) != 0
  {
  }

  /** A while loop ends when its test fails; an until loop is to end when its test succeeds, and
      that is when this one ends exactly if the test's status is 0 or 1. */
  lemma LoopTest(cfg: Config, fuel: nat, ctx: Context, until: bool, test: seq<Cmd>, body: seq<Cmd>, st: State)
    requires Exempt(cfg, fuel, ctx, test, st).out.Done?
    ensures var status, ended := Exempt(cfg, fuel, ctx, test, st).out.status, Round(cfg, fuel, ctx, until, test, body, st).0;
            && (!until ==> (ended <==> status != 0))
            && (until ==> ((ended <==> status == 0) <==> status == 0 || status == 1))
  {
  }

  /** `until utility; do other; done` where the utility fails with status 2: the loop ends there, and
      other is never run. */
  lemma UntilEndsEarly(cfg: Config, fuel: nat)
    requires fuel > 2 && forall t :: cfg.oracle(t, 0) == 2
    ensures var r := Main(cfg, fuel, [Loop(true, [Simple(0)], [Simple(1)])]);
            r.out == Done(0) && |r.st.trace| == 1 && r.st.trace[0].Ran? && r.st.trace[0].id == 0
  {
    hide Tree, Script, Check;
    var loop := Loop(true, [Simple(0)], [Simple(1)]);
    var t := Exempt(cfg, fuel - 1, TOP.(loops := 1), [Simple(0)], START);
    ExemptUtility(cfg, fuel - 1, TOP.(loops := 1), 0, START);
    assert Round(cfg, fuel - 1, TOP.(loops := 1), true, [Simple(0)], [Simple(1)], START) == (true, t);
    assert Node(cfg, fuel, TOP, loop, START) == Finish(0, t.st);
    LastLine(cfg, fuel, loop, START);
  }

  /** Two results that differ at most in the status the list remembers, which the list sets next. */
  predicate AlikeButLast(a: Result, b: Result) {
    a.out == b.out && a.st.(last := 0) == b.st.(last := 0)
  }

  /** When the test has failed, the else part is run as it is written. */
  predicate AsWritten(cfg: Config, fuel: nat, ctx: Context, test: seq<Cmd>, yes: seq<Cmd>, no: seq<Cmd>, st: State) {
    var t := Exempt(cfg, fuel, ctx, test, st);
    t.out.Done? && t.out.status != 0 ==>
      AlikeButLast(Branch(cfg, fuel, ctx, test, yes, no, st), Tree(cfg, fuel, ctx, no, 0, t.st))
  }

  /** How many redirections there are on an if. */
  function Redirections(c: Cmd): nat
    requires IsIf(c)
  {
    if c.If? then 0 else 1 + Redirections(c.cmd)
  }

  /** Only an else part that begins with an if can be run other than as it is written; a lone if
      without redirections is not, although it is taken for an elif. */
  lemma ElseIsRun(cfg: Config, fuel: nat, ctx: Context, test: seq<Cmd>, yes: seq<Cmd>, no: seq<Cmd>, st: State)
    requires no != [] && IsIf(no[0]) ==> |no| == 1 && Redirections(no[0]) == 0
    ensures AsWritten(cfg, fuel, ctx, test, yes, no, st)
  {
    hide Exempt, Tree;
    var t := Exempt(cfg, fuel, ctx, test, st);
    if no != [] && IsIf(no[0]) && t.out.Done? && t.out.status != 0 {
      assert no == [no[0]];
      OneLine(cfg, fuel, ctx, no[0], t.st);
    }
  }

  /** In an else part that begins with an if, that if is all that is run: what follows it on later
      lines of the else part, and the redirections on it, make no difference. What follows on the same
      line makes one Group with it, which is no if. */
  lemma ElseIfIsAll(cfg: Config, fuel: nat, ctx: Context, test: seq<Cmd>, yes: seq<Cmd>, first: Cmd, rest: seq<Cmd>, st: State)
    requires IsIf(first)
    ensures Branch(cfg, fuel, ctx, test, yes, [first] + rest, st) == Branch(cfg, fuel, ctx, test, yes, [TheIf(first)], st)
  {
    var no := [first] + rest;
    assert no[0] == first;
  }

  /** The exact condition, for the else parts of n commands on as many lines whose first is an if with
      r redirections: all of them are run as they are written if and only if there is nothing on the
      lines behind that if and nothing on it. */
  lemma ElseIfExactly(n: nat, r: nat)
    requires n > 0
    ensures (forall cfg, fuel, ctx, test, yes, no, st | |no| == n && IsIf(no[0]) && Redirections(no[0]) == r ::
               AsWritten(cfg, fuel, ctx, test, yes, no, st))
            <==> n == 1 && r == 0
  {
    if n == 1 && r == 0 {
      forall cfg, fuel, ctx, test, yes, no: seq<Cmd>, st | |no| == n && IsIf(no[0]) && Redirections(no[0]) == r
        ensures AsWritten(cfg, fuel, ctx, test, yes, no, st)
      {
        ElseIsRun(cfg, fuel, ctx, test, yes, no, st);
      }
    } else {
      SomethingIsLost(n, r);
    }
  }

  /** Utility 0 fails, the others succeed, and so do redirections. */
  const PLAIN := Config((_, id) => if id == 0 then 1 else 0, (_, _) => true, [], false, false, false, false)
  const TOP := Context(Stacks([], [], []), 0, false, false, false)
  const START := State([], 0, 0, 0, 0, None)

  /** `if 1; then 2; fi`, with r redirections. */
  function InnerIf(r: nat): (c: Cmd)
    ensures IsIf(c) && Redirections(c) == r && TheIf(c) == If([Simple(1)], [Simple(2)], []) && !Opaque(c)
  {
    if r == 0 then If([Simple(1)], [Simple(2)], []) else Redirected(0, InnerIf(r - 1))
  }

  /** An else part of the shape, and a run that shows what is lost of it. */
  lemma SomethingIsLost(n: nat, r: nat)
    requires n > 1 || (n == 1 && r > 0)
    ensures var no := [InnerIf(r)] + seq(n - 1, _ => Simple(3));
            |no| == n && IsIf(no[0]) && Redirections(no[0]) == r && !AsWritten(PLAIN, r + 3, TOP, [Simple(0)], [Simple(4)], no, START)
  {
    hide Tree, Branch, Node, Exempt;
    var fuel, rest := r + 3, seq(n - 1, _ => Simple(3));
    var first := InnerIf(r);
    var no := [first] + rest;
    var t := Exempt(PLAIN, fuel, TOP, [Simple(0)], START);
    ExemptUtility(PLAIN, fuel, TOP, 0, START);
    Elif(PLAIN, fuel, TOP, [Simple(0)], [Simple(4)], no, START);
    TwoRun(fuel - 1, TOP, t.st);
    InnerRuns(fuel, TOP, r, t.st);
    var x := Node(PLAIN, fuel, TOP, first, t.st);
    FirstOf(PLAIN, fuel, TOP, first, rest, 0, t.st);
    var xs := x.st.(last := 0);
    if n > 1 {
      Utility(PLAIN, fuel, TOP, 3, xs);
      FirstOf(PLAIN, fuel, TOP, Simple(3), rest[1..], 0, xs);
      assert rest == [Simple(3)] + rest[1..];
    } else {
      FirstOf(PLAIN, fuel, TOP, first, [], 0, t.st);
      assert rest == [];
      NoMore(PLAIN, fuel, TOP, 0, xs);
    }
  }

  lemma NoMore(cfg: Config, fuel: nat, ctx: Context, ret: int, st: State)
    ensures Tree(cfg, fuel, ctx, [], ret, st) == Result(Done(ret), st)
  {
  }

  lemma FirstOf(cfg: Config, fuel: nat, ctx: Context, c: Cmd, rest: seq<Cmd>, ret: int, st: State)
    requires Node(cfg, fuel, ctx, c, st).out == Done(0)
    ensures var x := Node(cfg, fuel, ctx, c, st);
            Tree(cfg, fuel, ctx, [c] + rest, ret, st) == Tree(cfg, fuel, ctx, rest, 0, x.st.(last := 0))
  {
    assert ([c] + rest)[1..] == rest;
  }

  lemma Elif(cfg: Config, fuel: nat, ctx: Context, test: seq<Cmd>, yes: seq<Cmd>, no: seq<Cmd>, st: State)
    requires fuel > 0 && no != [] && IsIf(no[0])
    requires var t := Exempt(cfg, fuel, ctx, test, st); t.out.Done? && t.out.status != 0
    ensures var t, i := Exempt(cfg, fuel, ctx, test, st), TheIf(no[0]);
            Branch(cfg, fuel, ctx, test, yes, no, st) == Branch(cfg, fuel - 1, ctx, i.test, i.yes, i.no, t.st)
  {
  }

  lemma ExemptUtility(cfg: Config, fuel: nat, ctx: Context, id: nat, st: State)
    requires fuel > 0 && (cfg.scoped ==> st.suppress == 0) && st.suppress >= 0
    ensures var status := cfg.oracle(st.trace, id);
            Exempt(cfg, fuel, ctx, [Simple(id)], st) ==
            Result(Done(status), st.(trace := st.trace + [Ran(id, ctx.at, st.dollar)], dollar := Short(status), last := Short(status)))
  {
    OneLine(cfg, fuel, ctx.(exempt := true), Simple(id), st);
    OneLine(cfg, fuel, ctx, Simple(id), st.(suppress := st.suppress + 1));
  }

  /** A script of one line that ends well. */
  lemma LastLine(cfg: Config, fuel: nat, c: Cmd, st: State)
    requires st.last == 0 && Node(cfg, fuel, TOP, c, st).out == Done(0)
    ensures Script(cfg, fuel, TOP, [c], st) ==
            Result(Done(0), Node(cfg, fuel, TOP, c, st).st.(last := 0, dollar := 0))
  {
    FirstLine(cfg, fuel, TOP, c, [], st);
    assert [c] + [] == [c];
    ScriptEnds(cfg, fuel, TOP, Node(cfg, fuel, TOP, c, st).st.(last := 0, dollar := 0));
  }

  /** The two utilities of the inner if, where the positions are those of ctx. */
  lemma TwoRun(fuel: nat, ctx: Context, st: State)
    requires fuel > 0 && st.suppress >= 0
    ensures var r := Branch(PLAIN, fuel, ctx, [Simple(1)], [Simple(2)], [], st);
            r.out == Done(0) && r.st.trace == st.trace + [Ran(1, ctx.at, st.dollar), Ran(2, ctx.at, 0)]
  {
    hide Tree, Node, Exempt;
    var t := Exempt(PLAIN, fuel, ctx, [Simple(1)], st);
    ExemptUtility(PLAIN, fuel, ctx, 1, st);
    OneLine(PLAIN, fuel, ctx, Simple(2), t.st);
    Utility(PLAIN, fuel, ctx, 2, t.st);
  }

  lemma {:induction false} InnerRuns(fuel: nat, ctx: Context, r: nat, st: State)
    requires fuel > r + 1 && st.suppress >= 0
    ensures var x := Node(PLAIN, fuel, ctx, InnerIf(r), st);
            && x.out == Done(0) && |x.st.trace| == |st.trace| + 2 && st.trace <= x.st.trace
            && x.st.trace[|st.trace|].Ran? && |x.st.trace[|st.trace|].at.fds| == |ctx.at.fds| + r
    decreases r
  {
    hide Branch;
    if r == 0 {
      TwoRun(fuel - 1, ctx, st);
    } else {
      InnerRuns(fuel - 1, ctx.(at := ctx.at.(fds := ctx.at.fds + [st.serial])), r - 1, st.(serial := st.serial + 1));
    }
  }

  /** 3 is never run in
          if 0; then 4; else if 1; then 2; fi
          3; fi */
  lemma LostInScript()
    ensures var r := Main(PLAIN, 4, [If([Simple(0)], [Simple(4)], [InnerIf(0), Simple(3)])]);
            r.out == Done(0) && |r.st.trace| == 3 && forall e | e in r.st.trace :: e.Ran? && e.id < 3
  {
    hide Tree, Script, Branch, Exempt;
    var no := [InnerIf(0), Simple(3)];
    var outer := If([Simple(0)], [Simple(4)], no);
    var t := Exempt(PLAIN, 3, TOP, [Simple(0)], START);
    ExemptUtility(PLAIN, 3, TOP, 0, START);
    Elif(PLAIN, 3, TOP, [Simple(0)], [Simple(4)], no, START);
    TwoRun(2, TOP, t.st);
    assert Node(PLAIN, 4, TOP, outer, START) == Branch(PLAIN, 3, TOP, [Simple(0)], [Simple(4)], no, START);
    LastLine(PLAIN, 4, outer, START);
  }

  /** On one line, `if 0; then 4; else if 1; then 2; fi; 3; fi`, it is: the else part is a Group. */
  lemma KeptOnOneLine()
    ensures var r := Main(PLAIN, 5, [If([Simple(0)], [Simple(4)], [Group([InnerIf(0), Simple(3)])])]);
            r.out == Done(0) && |r.st.trace| == 4 && r.st.trace[3].Ran? && r.st.trace[3].id == 3
  {
    hide Tree, Script, Branch, Exempt, Members;
    var group := Group([InnerIf(0), Simple(3)]);
    var outer := If([Simple(0)], [Simple(4)], [group]);
    var t := Exempt(PLAIN, 4, TOP, [Simple(0)], START);
    ExemptUtility(PLAIN, 4, TOP, 0, START);
    InnerRuns(3, TOP, 0, t.st);
    TwoMembers(PLAIN, 3, TOP, InnerIf(0), 3, t.st);
    OneLine(PLAIN, 4, TOP, group, t.st);
    ElseTaken(PLAIN, 4, TOP, [Simple(0)], [Simple(4)], [group], START);
    LastLine(PLAIN, 5, outer, START);
  }

  lemma ElseTaken(cfg: Config, fuel: nat, ctx: Context, test: seq<Cmd>, yes: seq<Cmd>, no: seq<Cmd>, st: State)
    requires no == [] || !IsIf(no[0])
    requires var t := Exempt(cfg, fuel, ctx, test, st); t.out.Done? && t.out.status != 0
    ensures Branch(cfg, fuel, ctx, test, yes, no, st) == Tree(cfg, fuel, ctx, no, 0, Exempt(cfg, fuel, ctx, test, st).st)
  {
  }

  lemma TwoMembers(cfg: Config, fuel: nat, ctx: Context, c: Cmd, id: nat, st: State)
    requires fuel > 0 && cfg.oracle(Node(cfg, fuel, ctx, c, st).st.trace, id) == 0 && Node(cfg, fuel, ctx, c, st).out == Done(0)
    ensures var x, r := Node(cfg, fuel, ctx, c, st), Members(cfg, fuel, ctx, [c, Simple(id)], 0, st);
            r.out == Done(0) && r.st.trace == x.st.trace + [Ran(id, ctx.at, 0)]
  {
    var x := Node(cfg, fuel, ctx, c, st).st.(dollar := 0);
    assert [c, Simple(id)][1..] == [Simple(id)];
    assert Members(cfg, fuel, ctx, [c, Simple(id)], 0, st) == Members(cfg, fuel, ctx, [Simple(id)], 0, x);
    assert [Simple(id)][1..] == [];
  }
}
