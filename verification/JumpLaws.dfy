/** Loops and jumps, each by the program that shows it: how often a loop goes round, how far a break
    goes, where return and exit end, and what $? is afterwards. */
module JumpLaws {
  import opened Wrappers
  import opened Commands
  import opened ErrExit
  import opened Calm

  const TOP := Context(Stacks([], [], []), 0, false, false, false)
  const START := State([], 0, 0, 0, 0, None)

  /** "set -e" is off, and statuses are those of processes. */
  ghost predicate Usual(cfg: Config) {
    !cfg.scoped && !cfg.errexit && forall t, id :: Fit(cfg.oracle(t, id))
  }

  // While and until

  function Pairs(t: nat, b: nat, n: nat): seq<Mark> {
    if n == 0 then [] else [Util(t), Util(b)] + Pairs(t, b, n - 1)
  }

  lemma {:induction false} PairsLength(t: nat, b: nat, n: nat)
    ensures |Pairs(t, b, n)| == 2 * n
  {
    if n > 0 {
      PairsLength(t, b, n - 1);
    }
  }

  /** Behind ms, the test t has the status that goes on n times, with b in between, and then another. */
  ghost predicate TestHolds(cfg: Config, go: int, t: nat, b: nat, n: nat, ms: seq<Mark>) {
    forall trace, k: nat | k <= n && Shown(trace) == ms + Pairs(t, b, k) :: cfg.oracle(trace, t) == go <==> k < n
  }

  lemma OneRound(t: nat, b: nat, n: nat, ms: seq<Mark>)
    requires n > 0
    ensures ms + Pairs(t, b, n) == (ms + [Util(t), Util(b)]) + Pairs(t, b, n - 1)
  {
  }

  lemma TestGoesOn(cfg: Config, go: int, t: nat, b: nat, n: nat, ms: seq<Mark>)
    requires n > 0 && TestHolds(cfg, go, t, b, n, ms)
    ensures TestHolds(cfg, go, t, b, n - 1, ms + [Util(t), Util(b)])
  {
    forall trace, k: nat | k <= n - 1 && Shown(trace) == (ms + [Util(t), Util(b)]) + Pairs(t, b, k)
      ensures cfg.oracle(trace, t) == go <==> k < n - 1
    {
      OneRound(t, b, k + 1, ms);
    }
  }

  lemma {:induction false} LoopRounds(cfg: Config, fuel: nat, ctx: Context, until: bool, t: nat, b: nat, n: nat, status: int, st: State)
    requires Usual(cfg) && fuel > n && st.suppress >= 0
    requires TestHolds(cfg, if until then 1 else 0, t, b, n, Shown(st.trace))
    ensures var r := Repeat(cfg, fuel, ctx, until, [Simple(t)], [Simple(b)], status, st);
            && r.out.Done? && Shown(r.st.trace) == Shown(st.trace) + Pairs(t, b, n) + [Util(t)]
            && r.out.status == if n == 0 then status else cfg.oracle(r.st.trace[..|r.st.trace| - 2], b)
    decreases n
  {
    hide Repeat, Shown, Tree, Exempt, Short;
    var go := if until then 1 else 0;
    var inside := ctx.(loops := ctx.loops + 1);
    var test, body := [Simple(t)], [Simple(b)];
    RepeatNext(cfg, fuel, ctx, until, test, body, status, st);
    ShownMore(st.trace, Ran(t, ctx.at, st.dollar));
    TestRun(cfg, fuel, inside, t, st);
    assert Pairs(t, b, 0) == [] && Shown(st.trace) + [] == Shown(st.trace);
    var e := Exempt(cfg, fuel, inside, test, st);
    assert e.out == Done(cfg.oracle(st.trace, t));
    if n > 0 {
      var k: nat := 0;
      assert Shown(st.trace) == Shown(st.trace) + Pairs(t, b, k);
      ShownMore(e.st.trace, Ran(b, ctx.at, e.st.dollar));
      BodyRun(cfg, fuel, inside, b, e.st);
      var r := Tree(cfg, fuel, inside, body, 0, e.st);
      TestGoesOn(cfg, go, t, b, n, Shown(st.trace));
      assert Shown(r.st.trace) == Shown(st.trace) + [Util(t), Util(b)];
      LoopRounds(cfg, fuel - 1, ctx, until, t, b, n - 1, r.st.last, r.st);
      OneRound(t, b, n, Shown(st.trace));
      Small(cfg.oracle(e.st.trace, b));
      var q := Repeat(cfg, fuel - 1, ctx, until, test, body, r.st.last, r.st);
      if n == 1 {
        LastBody(cfg, q.st.trace, e.st.trace, Ran(b, ctx.at, e.st.dollar), r.st.trace);
        TestOnce(cfg, fuel - 1, ctx, until, t, body, r.st.last, r.st);
      }
    } else {
      var k: nat := 0;
      assert Shown(st.trace) == Shown(st.trace) + Pairs(t, b, k);
    }
  }

  lemma LastBody(cfg: Config, whole: seq<Event>, before: seq<Event>, e: Event, behind: seq<Event>)
    ensures behind == before + [e] && |whole| == |behind| + 1 && whole[..|behind|] == behind ==> whole[..|whole| - 2] == before
  {
  }

  /** A loop whose test ends it at once. */
  lemma TestOnce(cfg: Config, fuel: nat, ctx: Context, until: bool, t: nat, body: seq<Cmd>, status: int, st: State)
    requires Usual(cfg) && fuel > 0 && st.suppress >= 0 && cfg.oracle(st.trace, t) != (if until then 1 else 0)
    ensures Repeat(cfg, fuel, ctx, until, [Simple(t)], body, status, st).st.trace == st.trace + [Ran(t, ctx.at, st.dollar)]
  {
    hide Repeat, Tree, Exempt;
    RepeatNext(cfg, fuel, ctx, until, [Simple(t)], body, status, st);
    TestRun(cfg, fuel, ctx.(loops := ctx.loops + 1), t, st);
  }

  lemma TestRun(cfg: Config, fuel: nat, ctx: Context, t: nat, st: State)
    requires Usual(cfg) && fuel > 0 && st.suppress >= 0
    ensures var r := Exempt(cfg, fuel, ctx, [Simple(t)], st);
            r.out == Done(cfg.oracle(st.trace, t)) && r.st.trace == st.trace + [Ran(t, ctx.at, st.dollar)] && r.st.suppress == st.suppress
  {
    OneLine(cfg, fuel, ctx, Simple(t), st.(suppress := st.suppress + 1));
  }

  lemma BodyRun(cfg: Config, fuel: nat, ctx: Context, b: nat, st: State)
    requires Usual(cfg) && fuel > 0
    ensures var r := Tree(cfg, fuel, ctx, [Simple(b)], 0, st);
            && r.out == Done(cfg.oracle(st.trace, b)) && r.st.trace == st.trace + [Ran(b, ctx.at, st.dollar)]
            && r.st.last == Short(cfg.oracle(st.trace, b)) && r.st.suppress == st.suppress
  {
    OneLine(cfg, fuel, ctx, Simple(b), st);
  }

  /** `while t; do b; done`, and with until: where the test holds n times and then no more, the test and
      the body are run n times and the test once again, and the status is that of the last body, or 0. */
  lemma LoopLaw(cfg: Config, fuel: nat, until: bool, t: nat, b: nat, n: nat)
    requires Usual(cfg) && fuel > n + 1 && TestHolds(cfg, if until then 1 else 0, t, b, n, [])
    ensures var r := Main(cfg, fuel, [Loop(until, [Simple(t)], [Simple(b)])]);
            && Shown(r.st.trace) == Pairs(t, b, n) + [Util(t)]
            && r.out == Done(if n == 0 then 0 else cfg.oracle(r.st.trace[..|r.st.trace| - 2], b))
  {
    hide Repeat, Shown, Script, Short, Node, Pairs, TestHolds;
    var loop := Loop(until, [Simple(t)], [Simple(b)]);
    NothingShown();
    assert [] + Pairs(t, b, n) == Pairs(t, b, n);
    StartOfLoop(cfg, until, t, b, n);
    LoopRounds(cfg, fuel - 1, TOP, until, t, b, n, 0, START);
    LoopNode(cfg, fuel, loop, START);
    var r := Node(cfg, fuel, TOP, loop, START);
    assert r == Repeat(cfg, fuel - 1, TOP, until, [Simple(t)], [Simple(b)], 0, START);
    PairsLength(t, b, n);
    if n > 0 {
      var before := r.st.trace[..|r.st.trace| - 2];
      assert r.out.status == cfg.oracle(before, b);
      assert Fit(cfg.oracle(before, b));
    }
    assert Fit(r.out.status);
    var failed := NextLine(cfg, fuel, loop, [], START);
    assert [loop] + [] == [loop];
    ScriptEnds(cfg, fuel, TOP, r.st.(last := 0, dollar := r.out.status, failed := failed));
  }

  lemma StartOfLoop(cfg: Config, until: bool, t: nat, b: nat, n: nat)
    requires TestHolds(cfg, if until then 1 else 0, t, b, n, [])
    ensures TestHolds(cfg, if until then 1 else 0, t, b, n, Shown(START.trace))
  {
    NothingShown();
  }

  lemma LoopNode(cfg: Config, fuel: nat, c: Cmd, st: State)
    requires c.Loop? && fuel > 0
    ensures Node(cfg, fuel, TOP, c, st) == Repeat(cfg, fuel - 1, TOP, c.until, c.test, c.body, 0, st)
  {
  }

  lemma NothingShown()
    ensures Shown([]) == []
  {
  }

  // Break and continue

  /** j for loops, one in the other, a jump in the innermost; each has two words, and behind the loop in
      its body a utility, all with its number. */
  function Deep(j: nat, n: nat, again: bool): Cmd {
    if j == 0 then Jump(n, again) else For([j, j], [Deep(j - 1, n, again), Simple(j)])
  }

  /** The first words of the loops from the jth in. */
  function Chain(j: nat): seq<Mark> {
    if j == 0 then [] else [Word(j)] + Chain(j - 1)
  }

  /** What is to be seen where loop m is the one to leave, or to go on with. */
  function Expected(j: nat, m: nat, again: bool): seq<Mark> {
    if j < m then Chain(j)
    else if j == m then (if again then Chain(j) + Chain(j) else Chain(j))
    else
      var once := [Word(j)] + (Expected(j - 1, m, again) + [Util(j)]);
      once + once
  }

  /** From inside loops.. the jump goes out of m of them. */
  lemma {:induction false} DeepRuns(cfg: Config, fuel: nat, ctx: Context, j: nat, m: nat, n: nat, again: bool, st: State)
    requires Usual(cfg) && n > 0 && fuel > j && 0 < m <= j + ctx.loops && m == (if n < j + ctx.loops then n else j + ctx.loops)
    ensures var r := Node(cfg, fuel, ctx, Deep(j, n, again), st);
            && Shown(r.st.trace) == Shown(st.trace) + Expected(j, m, again)
            && (if j < m then r.out == Stop(m - j, again) else r.out.Done?)
    decreases j
  {
    if j == 0 {
      assert Shown(st.trace) + [] == Shown(st.trace);
    } else {
      hide Each, Shown, Tree, Short, Expected, Chain;
      TwoWords(cfg, fuel - 1, ctx, j, m, n, again, st);
    }
  }

  /** Both words of the jth loop. */
  lemma TwoWords(cfg: Config, fuel: nat, ctx: Context, j: nat, m: nat, n: nat, again: bool, st: State)
    requires Usual(cfg) && n > 0 && fuel >= j > 0 && 0 < m <= j + ctx.loops && m == (if n < j + ctx.loops then n else j + ctx.loops)
    ensures var r := Each(cfg, fuel, ctx, [j, j], [Deep(j - 1, n, again), Simple(j)], false, st);
            && Shown(r.st.trace) == Shown(st.trace) + Expected(j, m, again)
            && (if j < m then r.out == Stop(m - j, again) else r.out.Done?)
    decreases j, 1
  {
    hide Each, Shown, Tree, Short, Expected, Chain;
    var body := [Deep(j - 1, n, again), Simple(j)];
    var two: seq<nat>, one: seq<nat>, none: seq<nat> := [j, j], [j], [];
    var inside := ctx.(loops := ctx.loops + 1);
    assert two[1..] == one && one[1..] == none;
    WordRuns(cfg, fuel, ctx, j, m, n, again, st);
    EachNext(cfg, fuel, ctx, two, body, false, st);
    var r := Tree(cfg, fuel, inside, body, 0, st.(trace := st.trace + [Bound(j)]));
    var once := [Word(j)] + Expected(j - 1, m, again) + if j > m then [Util(j)] else [];
    if j > m || (j == m && again) {
      WordRuns(cfg, fuel, ctx, j, m, n, again, r.st);
      EachNext(cfg, fuel, ctx, one, body, r.out.Done?, r.st);
      var q := Tree(cfg, fuel, inside, body, 0, r.st.(trace := r.st.trace + [Bound(j)]));
      EachNone(cfg, fuel, ctx, body, r.out.Done? || q.out.Done?, q.st);
      ExpectedTwice(j, m, again);
      assert Shown(q.st.trace) == Shown(st.trace) + once + once == Shown(st.trace) + (once + once);
    } else {
      ExpectedOnce(j, m, again);
    }
  }

  lemma ExpectedTwice(j: nat, m: nat, again: bool)
    requires j > 0 && m > 0 && (j > m || (j == m && again))
    ensures var once := [Word(j)] + Expected(j - 1, m, again) + if j > m then [Util(j)] else []; Expected(j, m, again) == once + once
  {
    var e := Expected(j - 1, m, again);
    assert [Word(j)] + (e + [Util(j)]) == [Word(j)] + e + [Util(j)];
    assert [Word(j)] + e + [] == [Word(j)] + e;
  }

  lemma ExpectedOnce(j: nat, m: nat, again: bool)
    requires j > 0 && m > 0 && (j < m || (j == m && !again))
    ensures Expected(j, m, again) == [Word(j)] + Expected(j - 1, m, again) + []
  {
  }

  /** One word of the jth loop. */
  lemma WordRuns(cfg: Config, fuel: nat, ctx: Context, j: nat, m: nat, n: nat, again: bool, st: State)
    requires Usual(cfg) && n > 0 && fuel >= j > 0 && 0 < m <= j + ctx.loops && m == (if n < j + ctx.loops then n else j + ctx.loops)
    ensures var r := Tree(cfg, fuel, ctx.(loops := ctx.loops + 1), [Deep(j - 1, n, again), Simple(j)], 0, st.(trace := st.trace + [Bound(j)]));
            && Shown(r.st.trace) == Shown(st.trace) + ([Word(j)] + Expected(j - 1, m, again) + if j > m then [Util(j)] else [])
            && (if j <= m then r.out == Stop(m - j + 1, again) else r.out.Done?)
    decreases j, 0
  {
    hide Shown, Node, Short, Tree, Expected, Kept;
    var inside, now := ctx.(loops := ctx.loops + 1), st.(trace := st.trace + [Bound(j)]);
    ShownMore(st.trace, Bound(j));
    DeepRuns(cfg, fuel, inside, j - 1, m, n, again, now);
    var c := Deep(j - 1, n, again);
    var r := Node(cfg, fuel, inside, c, now);
    TwoInTree(cfg, fuel, inside, c, j, now);
    if j > m {
      ShownMore(r.st.trace, Ran(j, inside.at, r.st.dollar));
    }
  }

  lemma TwoInTree(cfg: Config, fuel: nat, ctx: Context, c: Cmd, id: nat, st: State)
    requires Usual(cfg) && fuel > 0
    ensures var x, r := Node(cfg, fuel, ctx, c, st), Tree(cfg, fuel, ctx, [c, Simple(id)], 0, st);
            if x.out.Done? then r.out.Done? && r.st.trace == x.st.trace + [Ran(id, ctx.at, x.st.dollar)] else r == x
  {
    hide Short;
    var x := Node(cfg, fuel, ctx, c, st);
    assert [c, Simple(id)][1..] == [Simple(id)];
    if x.out.Done? {
      var q := Check(cfg, ctx, c, x.out.status, x.st.(last := Short(x.out.status)));
      BodyRun(cfg, fuel, ctx, id, q.st);
      RetDoesNot(cfg, fuel, ctx, [Simple(id)], x.out.status, 0, q.st);
    }
  }

  lemma RetDoesNot(cfg: Config, fuel: nat, ctx: Context, cs: seq<Cmd>, a: int, b: int, st: State)
    requires cs != []
    ensures Tree(cfg, fuel, ctx, cs, a, st) == Tree(cfg, fuel, ctx, cs, b, st)
  {
  }

  /** break n and continue n inside d loops go to loop n from within, or to the outermost: the loops
      inside it are left at once, and those around it go on as if nothing had happened. */
  lemma BreakLaw(cfg: Config, fuel: nat, d: nat, n: nat, again: bool)
    requires Usual(cfg) && n > 0 && d > 0 && fuel > d
    ensures var r := Main(cfg, fuel, [Deep(d, n, again)]);
            Shown(r.st.trace) == Expected(d, if n < d then n else d, again) && r.out.Done?
  {
    hide Shown, Script, Node, Short;
    var c := Deep(d, n, again);
    NothingShown();
    DeepRuns(cfg, fuel, TOP, d, if n < d then n else d, n, again, START);
    FirstLine(cfg, fuel, TOP, c, [], START);
    assert [c] + [] == [c];
    var r := Node(cfg, fuel, TOP, c, START);
    ScriptEnds(cfg, fuel, TOP, r.st.(last := 0, dollar := Short(r.out.status)));
    ScriptEnds(cfg, fuel, TOP, r.st.(last := 0, dollar := Short(r.out.status), failed := Some(|r.st.trace|)));
    assert [] + Expected(d, if n < d then n else d, again) == Expected(d, if n < d then n else d, again);
  }

  // Return, exit and $?

  /** c, and on the next line a utility. */
  function Then(c: Cmd, id: nat): seq<Cmd> { [c, Simple(id)] }

  /** c has ended with this status, and the utility behind it sees that in $?. */
  predicate EndsWith(cfg: Config, fuel: nat, c: Cmd, id: nat, before: seq<Mark>, status: int) {
    var r := Main(cfg, fuel, Then(c, id));
    && |r.st.trace| == |before| + 1 && Shown(r.st.trace) == before + [Util(id)]
    && r.st.trace[|before|].Ran? && r.st.trace[|before|].dollar == status
  }

  lemma SeenBehind(cfg: Config, fuel: nat, c: Cmd, id: nat)
    requires Usual(cfg) && fuel > 0
    requires var x := Node(cfg, fuel, TOP, c, START); x.out.Done? && Fit(x.out.status)
    ensures var x := Node(cfg, fuel, TOP, c, START); EndsWith(cfg, fuel, c, id, Shown(x.st.trace), x.out.status)
  {
    hide Node, Tree, Script, Shown;
    var x := Node(cfg, fuel, TOP, c, START);
    var s := x.out.status;
    var failed := NextLine(cfg, fuel, c, [Simple(id)], START);
    assert [c] + [Simple(id)] == Then(c, id);
    LastUtility(cfg, fuel, id, x.st.(last := 0, dollar := s, failed := failed));
    ShownMore(x.st.trace, Ran(id, TOP.at, s));
  }

  lemma NextLine(cfg: Config, fuel: nat, c: Cmd, rest: seq<Cmd>, st: State) returns (failed: Option<nat>)
    requires Usual(cfg) && st.last == 0
    requires var x := Node(cfg, fuel, TOP, c, st); x.out.Done? && Fit(x.out.status)
    ensures var x := Node(cfg, fuel, TOP, c, st);
            Script(cfg, fuel, TOP, [c] + rest, st) ==
            Script(cfg, fuel, TOP, rest, x.st.(last := 0, dollar := x.out.status, failed := failed))
  {
    hide Node, Script, Short;
    var x := Node(cfg, fuel, TOP, c, st);
    Small(x.out.status);
    FirstLine(cfg, fuel, TOP, c, rest, st);
    failed := if x.out.status == 0 || Suppressed(cfg, TOP, x.st) || !Opaque(c) || x.st.failed.Some? then x.st.failed else Some(|x.st.trace|);
  }

  lemma LastUtility(cfg: Config, fuel: nat, id: nat, st: State)
    requires Usual(cfg) && fuel > 0 && st.last == 0
    ensures Script(cfg, fuel, TOP, [Simple(id)], st).st.trace == st.trace + [Ran(id, TOP.at, st.dollar)]
  {
    hide Short;
    BodyRun(cfg, fuel, TOP, id, st);
  }

  /** $? is the status of the utility before. */
  lemma DollarIsStatus(cfg: Config, fuel: nat, a: nat, b: nat)
    requires Usual(cfg) && fuel > 0
    ensures EndsWith(cfg, fuel, Simple(a), b, [Util(a)], cfg.oracle([], a))
  {
    NothingShown();
    ShownMore([], Ran(a, TOP.at, 0));
    SeenBehind(cfg, fuel, Simple(a), b);
    assert [] + [Util(a)] == [Util(a)];
  }

  /** The first of two members that leaves the group. */
  lemma FirstLeaves(cfg: Config, fuel: nat, ctx: Context, c: Cmd, b: nat, st: State)
    requires !Node(cfg, fuel, ctx, c, st).out.Done?
    ensures Members(cfg, fuel, ctx, [c, Simple(b)], 0, st) == Node(cfg, fuel, ctx, c, st) == Tree(cfg, fuel, ctx, [c, Simple(b)], 0, st)
  {
  }

  /** return n ends the function that runs it, with status n. */
  lemma ReturnEndsCall(cfg: Config, fuel: nat, f: nat, n: nat, b: nat, c: nat)
    requires Usual(cfg) && fuel > 2 && Fit(n) && f < |cfg.fns| && cfg.fns[f] == Group([Return(Some(n)), Simple(b)])
    ensures EndsWith(cfg, fuel, Call(f), c, [], n)
  {
    hide Short, Returned;
    var inside := Context(Stacks([], [0], []), 0, false, true, false);
    FirstLeaves(cfg, fuel - 2, inside, Return(Some(n)), b, START.(serial := 1));
    Small(n);
    NothingShown();
    assert Node(cfg, fuel - 1, inside, cfg.fns[f], START.(serial := 1)) == Result(Ret(n), START.(serial := 1));
    assert TOP.at.vars + [START.serial] == [0];
    SeenBehind(cfg, fuel, Call(f), c);
  }

  /** exit n ends the subshell that runs it, with the low eight bits of n. */
  lemma ExitEndsSubshell(cfg: Config, fuel: nat, n: nat, b: nat, c: nat)
    requires Usual(cfg) && fuel > 2
    ensures EndsWith(cfg, fuel, Subshell([Exit(Some(n)), Simple(b)]), c, [], n % 0x100)
  {
    hide Short, Exited;
    var inside := Context(Stacks([0], [1], []), 0, false, true, false);
    FirstLeaves(cfg, fuel - 1, inside, Exit(Some(n)), b, START.(serial := 2));
    Small(n % 0x100);
    NothingShown();
    assert TOP.at.fds + [START.serial] == [0] && TOP.at.vars + [START.serial + 1] == [1];
    SeenBehind(cfg, fuel, Subshell([Exit(Some(n)), Simple(b)]), c);
  }

  /** return n ends the sourced file that runs it, and so does exit n. */
  lemma FileEnds(cfg: Config, fuel: nat, n: nat, b: nat, c: nat)
    requires Usual(cfg) && fuel > 2
    ensures Fit(n) ==> EndsWith(cfg, fuel, Source([Return(Some(n)), Simple(b)]), c, [], n)
    ensures EndsWith(cfg, fuel, Source([Exit(Some(n)), Simple(b)]), c, [], n % 0x100)
  {
    hide Short, Exited, Returned, Script;
    var inside := Context(Stacks([], [], [0]), 0, true, true, false);
    NothingShown();
    assert TOP.at.srcs + [START.serial] == [0];
    LineLeaves(cfg, fuel - 1, inside, Exit(Some(n)), b, START.(serial := 1));
    Small(n % 0x100);
    SeenBehind(cfg, fuel, Source([Exit(Some(n)), Simple(b)]), c);
    if Fit(n) {
      LineLeaves(cfg, fuel - 1, inside, Return(Some(n)), b, START.(serial := 1));
      Small(n);
      SeenBehind(cfg, fuel, Source([Return(Some(n)), Simple(b)]), c);
    }
  }

  lemma LineLeaves(cfg: Config, fuel: nat, ctx: Context, c: Cmd, b: nat, st: State)
    requires st.last == 0 && !Node(cfg, fuel, ctx, c, st).out.Done?
    ensures var x := Node(cfg, fuel, ctx, c, st); Script(cfg, fuel, ctx, [c, Simple(b)], st) == Result(x.out, x.st.(last := 0))
  {
    hide Node;
    OneLine(cfg, fuel, ctx, c, st);
  }

  /** exit n ends the shell with the low eight bits of n, also from within a function. */
  lemma ExitEndsShell(cfg: Config, fuel: nat, f: nat, n: nat, b: nat)
    requires Usual(cfg) && fuel > 2 && f < |cfg.fns| && cfg.fns[f] == Group([Exit(Some(n)), Simple(b)])
    ensures Main(cfg, fuel, Then(Exit(Some(n)), b)).out == Quit(n % 0x100) && Main(cfg, fuel, Then(Exit(Some(n)), b)).st.trace == []
    ensures Main(cfg, fuel, Then(Call(f), b)).out == Quit(n % 0x100) && Main(cfg, fuel, Then(Call(f), b)).st.trace == []
  {
    hide Script, Short;
    LineLeaves(cfg, fuel, TOP, Exit(Some(n)), b, START);
    var inside := Context(Stacks([], [0], []), 0, false, true, false);
    assert TOP.at.vars + [START.serial] == [0];
    FirstLeaves(cfg, fuel - 2, inside, Exit(Some(n)), b, START.(serial := 1));
    assert Node(cfg, fuel - 1, inside, cfg.fns[f], START.(serial := 1)) == Result(Quit(n % 0x100), START.(serial := 1));
    LineLeaves(cfg, fuel, TOP, Call(f), b, START);
  }

  /** A call of a function whose body is a group. */
  lemma CallIs(cfg: Config, fuel: nat, ctx: Context, f: nat, cs: seq<Cmd>, st: State)
    requires fuel > 2 && f < |cfg.fns| && cfg.fns[f] == Group(cs)
    ensures var inside := Context(ctx.at.(vars := ctx.at.vars + [st.serial]), 0, false, true, ctx.exempt);
            var m := Members(cfg, fuel - 2, inside, cs, 0, st.(serial := st.serial + 1, dollar := 0, last := 0));
            && (m.out.Done? ==> Node(cfg, fuel, ctx, Call(f), st) == Finish(m.out.status, m.st.(last := st.last)))
            && (m.out.Ret? ==> Node(cfg, fuel, ctx, Call(f), st) == Finish(Returned(m.out.value), m.st.(last := st.last)))
  {
    hide Members;
    var inside := Context(ctx.at.(vars := ctx.at.vars + [st.serial]), 0, false, true, ctx.exempt);
    var called := st.(serial := st.serial + 1, dollar := 0, last := 0);
    assert Node(cfg, fuel - 1, inside, cfg.fns[f], called) == Members(cfg, fuel - 2, inside, cs, 0, called);
    assert Node(cfg, fuel, ctx, Call(f), st) == Function(cfg, fuel - 1, ctx, f, st);
  }

  /** exit without an operand takes the low eight bits of $?, and so does return in a function. */
  lemma DefaultStatus(cfg: Config, fuel: nat, f: nat, a: nat, c: nat)
    requires Usual(cfg) && fuel > 2 && f < |cfg.fns| && cfg.fns[f] == Group([Simple(a), Return(None)])
    ensures Main(cfg, fuel, [Simple(a), Exit(None)]).out == Quit(cfg.oracle([], a) % 0x100)
    ensures EndsWith(cfg, fuel, Call(f), c, [Util(a)], cfg.oracle([], a) % 0x100)
  {
    hide Script, Short, Returned, Tree, Shown, Members, Node, Function;
    var s := cfg.oracle([], a);
    Small(s % 0x100);
    ExitBehind(cfg, fuel, a);
    var inside, st := Context(Stacks([], [0], []), 0, false, true, false), START.(serial := 1);
    assert TOP.at.vars + [START.serial] == [0];
    CallIs(cfg, fuel, TOP, f, [Simple(a), Return(None)], START);
    ReturnBehind(cfg, fuel - 2, inside, a, st);
    NothingShown();
    ShownMore([], Ran(a, inside.at, 0));
    assert [] + [Util(a)] == [Util(a)];
    SeenBehind(cfg, fuel, Call(f), c);
  }

  lemma ExitBehind(cfg: Config, fuel: nat, a: nat)
    requires Usual(cfg) && fuel > 0
    ensures Main(cfg, fuel, [Simple(a), Exit(None)]).out == Quit(cfg.oracle([], a) % 0x100)
  {
    hide Script, Short, Tree;
    var x := Node(cfg, fuel, TOP, Simple(a), START);
    Small(cfg.oracle([], a));
    var failed := NextLine(cfg, fuel, Simple(a), [Exit(None)], START);
    assert [Simple(a)] + [Exit(None)] == [Simple(a), Exit(None)];
    var st := x.st.(last := 0, dollar := x.out.status, failed := failed);
    OneLine(cfg, fuel, TOP, Exit(None), st);
    FirstLine(cfg, fuel, TOP, Exit(None), [], st);
    assert [Exit(None)] + [] == [Exit(None)];
  }

  lemma ReturnBehind(cfg: Config, fuel: nat, ctx: Context, a: nat, st: State)
    requires Usual(cfg) && fuel > 0 && ctx.canReturn
    ensures var r := Members(cfg, fuel, ctx, [Simple(a), Return(None)], 0, st);
            r.out == Ret(cfg.oracle(st.trace, a) % 0x100) && r.st.trace == st.trace + [Ran(a, ctx.at, st.dollar)]
  {
    hide Short;
    Small(cfg.oracle(st.trace, a));
    assert [Simple(a), Return(None)][1..] == [Return(None)];
    var x := Node(cfg, fuel, ctx, Simple(a), st);
    var q := Check(cfg, ctx, Simple(a), x.out.status, x.st.(dollar := Short(x.out.status)));
    assert Members(cfg, fuel, ctx, [Simple(a), Return(None)], 0, st) == Members(cfg, fuel, ctx, [Return(None)], x.out.status, q.st);
    assert Node(cfg, fuel, ctx, Return(None), q.st) == Result(Ret(q.st.dollar % 0x100), q.st);
  }

  /** A loop level of 0 is an error, on which a shell that is not interactive exits. */
  lemma NoLevel(cfg: Config, fuel: nat, again: bool, b: nat)
    requires Usual(cfg) && fuel > 0 && !cfg.interactive
    ensures Main(cfg, fuel, Then(Jump(0, again), b)).out == Quit(1) && Main(cfg, fuel, Then(Jump(0, again), b)).st.trace == []
  {
    hide Script;
    LineLeaves(cfg, fuel, TOP, Jump(0, again), b, START);
  }

  /** Where no loop is in reach break and continue do nothing: in a function or a subshell that a loop
      runs what follows them is run. */
  lemma BreakStaysInside(cfg: Config, fuel: nat, ctx: Context, f: nat, n: nat, again: bool, b: nat, st: State)
    requires Usual(cfg) && fuel > 2 && n > 0 && f < |cfg.fns| && cfg.fns[f] == Group([Jump(n, again), Simple(b)])
    ensures var r := Node(cfg, fuel, ctx, Call(f), st);
            r.out.Done? && Shown(r.st.trace) == Shown(st.trace) + [Util(b)]
    ensures var r := Node(cfg, fuel, ctx, Subshell([Jump(n, again), Simple(b)]), st);
            r.out.Done? && Shown(r.st.trace) == Shown(st.trace) + [Util(b)]
  {
    hide Short, Returned, Exited, Shown, Tree, Members, Node, Function, Inner;
    var calls := Context(ctx.at.(vars := ctx.at.vars + [st.serial]), 0, false, true, ctx.exempt);
    var called := st.(serial := st.serial + 1, dollar := 0, last := 0);
    NoLoop(cfg, fuel - 2, calls, n, again, called);
    TwoInMembers(cfg, fuel - 2, calls, Jump(n, again), b, called);
    ShownMore(st.trace, Ran(b, calls.at, 0));
    CallIs(cfg, fuel, ctx, f, [Jump(n, again), Simple(b)], st);
    var at := ctx.at.(fds := ctx.at.fds + [st.serial], vars := ctx.at.vars + [st.serial + 1]);
    var inside, begun := Context(at, 0, false, true, ctx.exempt), st.(serial := st.serial + 2, last := 0);
    NoLoop(cfg, fuel - 1, inside, n, again, begun);
    TwoInTree(cfg, fuel - 1, inside, Jump(n, again), b, begun);
    ShownMore(st.trace, Ran(b, inside.at, 0));
    SubshellIs(cfg, fuel, ctx, [Jump(n, again), Simple(b)], st);
  }

  lemma NoLoop(cfg: Config, fuel: nat, ctx: Context, n: nat, again: bool, st: State)
    requires fuel > 0 && n > 0 && ctx.loops == 0 && !ctx.file
    ensures Node(cfg, fuel, ctx, Jump(n, again), st) == Result(Done(0), st.(dollar := 0))
  {
    hide Short;
    ShortZero();
  }

  lemma ShortZero()
    ensures Short(0) == 0
  {
  }

  lemma SubshellIs(cfg: Config, fuel: nat, ctx: Context, cs: seq<Cmd>, st: State)
    requires fuel > 0
    ensures var at := ctx.at.(fds := ctx.at.fds + [st.serial], vars := ctx.at.vars + [st.serial + 1]);
            var m := Tree(cfg, fuel - 1, Context(at, 0, false, true, ctx.exempt), cs, 0, st.(serial := st.serial + 2, last := 0));
            m.out.Done? ==> Node(cfg, fuel, ctx, Subshell(cs), st) == Finish(m.st.last, m.st.(last := st.last))
  {
    hide Tree;
  }

  lemma TwoInMembers(cfg: Config, fuel: nat, ctx: Context, c: Cmd, id: nat, st: State)
    requires Usual(cfg) && fuel > 0 && Node(cfg, fuel, ctx, c, st).out == Done(0)
    ensures var x, r := Node(cfg, fuel, ctx, c, st), Members(cfg, fuel, ctx, [c, Simple(id)], 0, st);
            r.out.Done? && r.st.trace == x.st.trace + [Ran(id, ctx.at, 0)]
  {
    hide Node, Members;
    var x := Node(cfg, fuel, ctx, c, st).st.(dollar := 0);
    FirstMember(cfg, fuel, ctx, c, [Simple(id)], 0, st);
    assert [c] + [Simple(id)] == [c, Simple(id)];
    LastMember(cfg, fuel, ctx, id, x);
  }

  lemma FirstMember(cfg: Config, fuel: nat, ctx: Context, c: Cmd, cs: seq<Cmd>, ret: int, st: State)
    requires Node(cfg, fuel, ctx, c, st).out == Done(0)
    ensures Members(cfg, fuel, ctx, [c] + cs, ret, st) == Members(cfg, fuel, ctx, cs, 0, Node(cfg, fuel, ctx, c, st).st.(dollar := 0))
  {
    hide Node, Short;
    ShortZero();
    assert ([c] + cs)[1..] == cs;
  }

  lemma LastMember(cfg: Config, fuel: nat, ctx: Context, id: nat, st: State)
    requires Usual(cfg) && fuel > 0
    ensures var r := Members(cfg, fuel, ctx, [Simple(id)], 0, st);
            r.out.Done? && r.st.trace == st.trace + [Ran(id, ctx.at, st.dollar)]
  {
    hide Short;
    assert [Simple(id)][1..] == [];
  }

  /** In a sourced file they reach the loops around the dot command. */
  lemma BreakLeavesFile(cfg: Config, fuel: nat, ctx: Context, n: nat, again: bool, b: nat, st: State)
    requires Usual(cfg) && fuel > 1 && n > 0 && ctx.loops > 0
    ensures var r := Node(cfg, fuel, ctx, Source([Jump(n, again), Simple(b)]), st);
            r.out == Stop(if n < ctx.loops then n else ctx.loops, again) && r.st.trace == st.trace
  {
    hide Script, Short;
    var inside := Context(ctx.at.(srcs := ctx.at.srcs + [st.serial]), 0, true, true, ctx.exempt);
    LineLeaves(cfg, fuel - 1, inside, Jump(n, again), b, st.(serial := st.serial + 1, last := 0));
  }

  /** How many levels of each scope stack a utility finds that c runs alone. */
  predicate FindsLevels(cfg: Config, fuel: nat, ctx: Context, c: Cmd, id: nat, st: State, fds: nat, vars: nat, srcs: nat) {
    var r := Node(cfg, fuel, ctx, c, st);
    && |r.st.trace| == |st.trace| + 1 && r.st.trace[|st.trace|].Ran? && r.st.trace[|st.trace|].id == id
    && var at := r.st.trace[|st.trace|].at; |at.fds| == fds && |at.vars| == vars && |at.srcs| == srcs
  }

  /** A redirection is a level of descriptors, a call one of variables, a subshell one of each, eval and
      dot one of sources. */
  lemma Levels(cfg: Config, fuel: nat, ctx: Context, f: nat, id: nat, k: nat, st: State)
    requires Usual(cfg) && fuel > 2 && f < |cfg.fns| && cfg.fns[f] == Group([Simple(id)]) && cfg.opens(st.trace, k)
    ensures var (a, b, c) := (|ctx.at.fds|, |ctx.at.vars|, |ctx.at.srcs|);
            && FindsLevels(cfg, fuel, ctx, Simple(id), id, st, a, b, c)
            && FindsLevels(cfg, fuel, ctx, Redirected(k, Simple(id)), id, st, a + 1, b, c)
            && FindsLevels(cfg, fuel, ctx, Call(f), id, st, a, b + 1, c)
            && FindsLevels(cfg, fuel, ctx, Subshell([Simple(id)]), id, st, a + 1, b + 1, c)
            && FindsLevels(cfg, fuel, ctx, Eval([Simple(id)]), id, st, a, b, c + 1)
            && FindsLevels(cfg, fuel, ctx, Source([Simple(id)]), id, st, a, b, c + 1)
  {
    hide Short, Returned, Exited, Tree, Members, Script, Lines;
    var calls := Context(ctx.at.(vars := ctx.at.vars + [st.serial]), 0, false, true, ctx.exempt);
    LastMember(cfg, fuel - 2, calls, id, st.(serial := st.serial + 1, dollar := 0, last := 0));
    CallIs(cfg, fuel, ctx, f, [Simple(id)], st);
    var at := ctx.at.(fds := ctx.at.fds + [st.serial], vars := ctx.at.vars + [st.serial + 1]);
    BodyRun(cfg, fuel - 1, Context(at, 0, false, true, ctx.exempt), id, st.(serial := st.serial + 2, last := 0));
    SubshellIs(cfg, fuel, ctx, [Simple(id)], st);
    var srcs := ctx.at.(srcs := ctx.at.srcs + [st.serial]);
    LineRun(cfg, fuel - 1, ctx.(at := srcs), id, st.(serial := st.serial + 1, last := 0));
    LineRun(cfg, fuel - 1, Context(srcs, 0, true, true, ctx.exempt), id, st.(serial := st.serial + 1, last := 0));
    SourcesAre(cfg, fuel, ctx, [Simple(id)], st);
    RedirectedIs(cfg, fuel, ctx, k, Simple(id), st);
  }

  lemma SourcesAre(cfg: Config, fuel: nat, ctx: Context, ls: seq<Cmd>, st: State)
    requires fuel > 0
    ensures var srcs, now := ctx.at.(srcs := ctx.at.srcs + [st.serial]), st.(serial := st.serial + 1, last := 0);
            && Node(cfg, fuel, ctx, Eval(ls), st).st.trace == Lines(cfg, fuel - 1, ctx.(at := srcs), ls, now).st.trace
            && Node(cfg, fuel, ctx, Source(ls), st).st.trace ==
               Script(cfg, fuel - 1, Context(srcs, 0, true, true, ctx.exempt), ls, now).st.trace
  {
    hide Lines, Script;
    assert Node(cfg, fuel, ctx, Eval(ls), st) == Evaluated(cfg, fuel - 1, ctx, ls, st);
    assert Node(cfg, fuel, ctx, Source(ls), st) == File(cfg, fuel - 1, ctx, ls, st);
  }

  lemma RedirectedIs(cfg: Config, fuel: nat, ctx: Context, k: nat, c: Cmd, st: State)
    requires fuel > 0 && cfg.opens(st.trace, k)
    ensures Node(cfg, fuel, ctx, Redirected(k, c), st) ==
            Node(cfg, fuel - 1, ctx.(at := ctx.at.(fds := ctx.at.fds + [st.serial])), c, st.(serial := st.serial + 1))
  {
  }

  lemma LineRun(cfg: Config, fuel: nat, ctx: Context, id: nat, st: State)
    requires Usual(cfg) && fuel > 0
    ensures var r := Lines(cfg, fuel, ctx, [Simple(id)], st);
            r.out.Done? && r.st.trace == st.trace + [Ran(id, ctx.at, st.dollar)]
    ensures var r := Script(cfg, fuel, ctx, [Simple(id)], st);
            r.out.Done? && r.st.trace == st.trace + [Ran(id, ctx.at, st.dollar)]
  {
    hide Tree, Short;
    BodyRun(cfg, fuel, ctx, id, st);
    BodyRun(cfg, fuel, ctx, id, st.(last := 0));
    assert [Simple(id)][1..] == [];
  }
}
