/** The commands of the evaluator and what they mean.

    Meaning is given twice over the same functions. With `scoped` false the "set -e"
    exemption is the shell's own counter, which a jump that leaves a condition does not
    take back; with `scoped` true it is what POSIX asks for, a property of where the
    command stands. Break, continue, return and exit are outcomes here, so that no frame,
    no saved stack and no longjmp appears. */
module Commands {
  import opened Wrappers

  datatype Cmd =
    | Simple(id: nat)                             // a utility or a pipeline: the oracle says its status
    | Jump(levels: nat, again: bool)              // break n, continue n
    | Return(status: Option<nat>)
    | Exit(status: Option<nat>)
    | Group(cmds: seq<Cmd>)                       // { ...; } and a list on one line
    | If(test: seq<Cmd>, yes: seq<Cmd>, no: seq<Cmd>)
    | Loop(until: bool, test: seq<Cmd>, body: seq<Cmd>)
    | For(words: seq<nat>, body: seq<Cmd>)
    | AndOr(or: bool, left: Cmd, right: Cmd)
    | Not(cmd: Cmd)
    | Time(cmd: Cmd)
    | Call(fn: nat)
    | Subshell(cmds: seq<Cmd>)
    | Eval(lines: seq<Cmd>)                       // a line is one command, a list on it a group
    | Source(lines: seq<Cmd>)
    | Redirected(id: nat, cmd: Cmd)               // a compound command with redirections

  /** Where the three scope stacks stand; every level pushed has its own number. */
  datatype Stacks = Stacks(fds: seq<nat>, vars: seq<nat>, srcs: seq<nat>)

  datatype Event = Ran(id: nat, at: Stacks, dollar: int) | Bound(word: nat)

  /** What does not change during a run: what utilities return, whether redirections can be made, the
      functions and options. `rolled`: whether a longjmp gives a loop's local
      variables back the values they had at setjmp, which C leaves open. */
  datatype Config = Config(
    oracle: (seq<Event>, nat) -> int, opens: (seq<Event>, nat) -> bool, fns: seq<Cmd>,
    errexit: bool, interactive: bool, rolled: bool, scoped: bool)

  /** dollar is $?, last the status the innermost list remembers, failed where the trace
      stood when a command "set -e" cares about first failed. */
  datatype State = State(
    trace: seq<Event>, dollar: int, last: int, suppress: int, serial: nat, failed: Option<nat>)

  datatype Outcome =
    | Done(status: int)
    | Stop(levels: nat, again: bool)   // on its way out of that many loops
    | Leave(levels: nat, again: bool)  // on its way out of a sourced file that has no loop around it
    | Ret(value: nat)
    | Quit(code: int)
    | Stuck                            // the fuel ran out

  datatype Result = Result(out: Outcome, st: State)

  /** The surroundings of a command: the stacks, the loops a break can reach, whether a
      sourced file bounds them, whether a return has somewhere to go, the exemption. */
  datatype Context = Context(at: Stacks, loops: nat, file: bool, canReturn: bool, exempt: bool)

  function Short(x: int): int { (x + 0x8000) % 0x1_0000 - 0x8000 }

  function Int32(x: int): int { (x + 0x8000_0000) % 0x1_0000_0000 - 0x8000_0000 }

  /** What setjmp returns for longjmp(buf, x). */
  function Landing(x: int): int { if Int32(x) == 0 then 1 else Int32(x) }

  /** The status a function, a file or a subshell finds after return v or exit v. */
  function Returned(v: int): int { Landing(2 * v) / 2 }

  function Exited(v: int): int { Landing(2 * v + 1) / 2 }

  function Finish(status: int, st: State): Result {
    Result(Done(status), st.(dollar := Short(status)))
  }

  function Min(a: nat, b: nat): nat { if a < b then a else b }

  /** What every command keeps: it leaves only loops that are there, returns only where there is
      something to return from, only adds to the trace, remembers the first failure, and never ends
      with the counter lower. Where
      the exemption is one of place, the counter is not touched and nothing fails in its scope. */
  ghost predicate Kept(cfg: Config, ctx: Context, st: State, r: Result) {
    && (r.out.Stop? ==> 1 <= r.out.levels <= ctx.loops)
    && (r.out.Leave? ==> r.out.levels > 0 && ctx.loops == 0 && ctx.file)
    && (r.out.Ret? ==> ctx.canReturn)
    && st.trace <= r.st.trace
    && (st.failed.Some? ==> r.st.failed == st.failed)
    && (r.st.failed.Some? && st.failed.None? ==> |st.trace| <= r.st.failed.value <= |r.st.trace|)
    && (cfg.scoped ==> r.st.suppress == st.suppress)
    && r.st.suppress >= st.suppress
    && (cfg.scoped && ctx.exempt ==> r.st.failed == st.failed)
  }

  predicate IsIf(c: Cmd) {
    c.If? || (c.Redirected? && IsIf(c.cmd))
  }

  function TheIf(c: Cmd): (r: Cmd)
    requires IsIf(c)
    ensures r.If?
  {
    if c.If? then c else TheIf(c.cmd)
  }

  /** Node kinds whose status "set -e" looks at: the others have had their parts looked at. */
  predicate Opaque(c: Cmd) {
    match c
    case Group(_) => false
    case If(_, _, _) => false
    case Loop(_, _, _) => false
    case For(_, _) => false
    case AndOr(_, _, _) => false
    case Not(_) => false
    case Redirected(_, d) => Opaque(d)
    case _ => true
  }

  predicate Suppressed(cfg: Config, ctx: Context, st: State) {
    if cfg.scoped then ctx.exempt else st.suppress != 0
  }

  /** The "set -e" test after a command of a list. */
  function Check(cfg: Config, ctx: Context, c: Cmd, status: int, st: State): (r: Result)
    ensures Kept(cfg, ctx, st, r) && (r.out.Done? || r.out.Quit?)
  {
    if status == 0 || Suppressed(cfg, ctx, st) || !Opaque(c) then
      Result(Done(status), st)
    else
      var st1 := if st.failed.None? then st.(failed := Some(|st.trace|)) else st;
      Result(if cfg.errexit then Quit(status) else Done(status), st1)
  }

  /** Break or continue n > 0. */
  function Leap(ctx: Context, n: nat, again: bool, st: State): (r: Result)
    requires n > 0
    ensures r.out.Stop? ==> 1 <= r.out.levels <= ctx.loops
    ensures r.out.Leave? ==> r.out.levels > 0 && ctx.loops == 0 && ctx.file
    ensures r.out.Stop? || r.out.Leave? || r.out.Done?
  {
    if ctx.loops > 0 then Result(Stop(Min(n, ctx.loops), again), st)
    else if ctx.file then Result(Leave(n, again), st)
    else Finish(0, st)
  }

  predicate IsLeaf(c: Cmd) { c.Simple? || c.Jump? || c.Return? || c.Exit? }

  /** Utilities, and break, continue, return and exit. */
  function Leaf(cfg: Config, ctx: Context, c: Cmd, st: State): (r: Result)
    requires IsLeaf(c)
    ensures Kept(cfg, ctx, st, r)
  {
    match c
    case Simple(id) =>
      Finish(cfg.oracle(st.trace, id), st.(trace := st.trace + [Ran(id, ctx.at, st.dollar)]))
    case Jump(n, again) =>
      if n > 0 then Leap(ctx, n, again, st)
      else if cfg.interactive then Finish(1, st)
      else Result(Quit(1), st)
    case Return(v) =>
      var w := if v.Some? then v.value else st.dollar % 0x100;
      if ctx.canReturn then Result(Ret(w), st) else Finish(0, st)
    case Exit(v) =>
      Result(Quit((if v.Some? then v.value else st.dollar) % 0x100), st)
  }

  function Node(cfg: Config, fuel: nat, ctx: Context, c: Cmd, st: State): (r: Result)
    ensures Kept(cfg, ctx, st, r)
    decreases fuel, 0, 0
  {
    if fuel == 0 then Result(Stuck, st) else
    match c
    case Simple(_) => Leaf(cfg, ctx, c, st)
    case Jump(_, _) => Leaf(cfg, ctx, c, st)
    case Return(_) => Leaf(cfg, ctx, c, st)
    case Exit(_) => Leaf(cfg, ctx, c, st)
    case Group(cs) => Members(cfg, fuel - 1, ctx, cs, 0, st)
    case If(test, yes, no) => Branch(cfg, fuel - 1, ctx, test, yes, no, st)
    case Loop(until, test, body) => Repeat(cfg, fuel - 1, ctx, until, test, body, 0, st)
    case For(words, body) => Each(cfg, fuel - 1, ctx, words, body, false, st)
    case AndOr(or, left, right) =>
      var r := Exempt(cfg, fuel - 1, ctx, [left], st);
      if r.out.Done? && (r.out.status != 0) == or then Tree(cfg, fuel - 1, ctx, [right], 0, r.st) else r
    case Not(d) =>
      var r := Exempt(cfg, fuel - 1, ctx, [d], st);
      if r.out.Done? then r.(out := Done(if r.out.status == 0 then 1 else 0)) else r
    case Time(d) => Exempt(cfg, fuel - 1, ctx, [d], st)
    case Call(f) => if f < |cfg.fns| then Function(cfg, fuel - 1, ctx, f, st) else Finish(127, st)
    case Subshell(cs) => Inner(cfg, fuel - 1, ctx, cs, st)
    case Eval(lines) => Evaluated(cfg, fuel - 1, ctx, lines, st)
    case Source(lines) => File(cfg, fuel - 1, ctx, lines, st)
    case Redirected(id, d) =>
      var at := ctx.at.(fds := ctx.at.fds + [st.serial]);
      if !cfg.opens(st.trace, id) then Result(Done(1), st.(serial := st.serial + 1)) else
      Node(cfg, fuel - 1, ctx.(at := at), d, st.(serial := st.serial + 1))
  }

  /** The commands of a compound list, one after the other. */
  function Tree(cfg: Config, fuel: nat, ctx: Context, cs: seq<Cmd>, ret: int, st: State): (r: Result)
    ensures Kept(cfg, ctx, st, r)
    decreases fuel, 1, |cs|
  {
    if cs == [] then Result(Done(ret), st) else
    var r := Node(cfg, fuel, ctx, cs[0], st);
    if !r.out.Done? then r else
    var q := Check(cfg, ctx, cs[0], r.out.status, r.st.(last := Short(r.out.status)));
    if !q.out.Done? then q else Tree(cfg, fuel, ctx, cs[1..], r.out.status, q.st)
  }

  /** The commands of a group. */
  function Members(cfg: Config, fuel: nat, ctx: Context, cs: seq<Cmd>, ret: int, st: State): (r: Result)
    ensures Kept(cfg, ctx, st, r)
    decreases fuel, 1, |cs|
  {
    if cs == [] then Result(Done(ret), st) else
    var r := Node(cfg, fuel, ctx, cs[0], st);
    if !r.out.Done? then r else
    var q := Check(cfg, ctx, cs[0], r.out.status, r.st.(dollar := Short(r.out.status)));
    if !q.out.Done? then q else Members(cfg, fuel, ctx, cs[1..], r.out.status, q.st)
  }

  /** A condition, a negated or timed command, a left operand: "set -e" does not look inside. */
  function Exempt(cfg: Config, fuel: nat, ctx: Context, cs: seq<Cmd>, st: State): (r: Result)
    ensures Kept(cfg, ctx, st, r)
    decreases fuel, 2, 0
  {
    if cfg.scoped then Tree(cfg, fuel, ctx.(exempt := true), cs, 0, st) else
    var r := Tree(cfg, fuel, ctx, cs, 0, st.(suppress := st.suppress + 1));
    if r.out.Done? then r.(st := r.st.(suppress := r.st.suppress - 1)) else r
  }

  /** An if. An else part that begins with an if is taken for an elif. */
  function Branch(cfg: Config, fuel: nat, ctx: Context,
    test: seq<Cmd>, yes: seq<Cmd>, no: seq<Cmd>, st: State): (r: Result)
    ensures Kept(cfg, ctx, st, r)
    decreases fuel, 3, 0
  {
    var r := Exempt(cfg, fuel, ctx, test, st);
    if !r.out.Done? then r
    else if r.out.status == 0 then Tree(cfg, fuel, ctx, yes, 0, r.st)
    else if no != [] && IsIf(no[0]) then
      if fuel == 0 then Result(Stuck, r.st) else
      Branch(cfg, fuel - 1, ctx, TheIf(no[0]).test, TheIf(no[0]).yes, TheIf(no[0]).no, r.st)
    else Tree(cfg, fuel, ctx, no, 0, r.st)
  }

  /** One round of while or until: whether the test ended the loop, and what the round came to. */
  function Round(cfg: Config, fuel: nat, ctx: Context,
    until: bool, test: seq<Cmd>, body: seq<Cmd>, st: State): (r: (bool, Result))
    ensures Kept(cfg, ctx, st, r.1) && (r.0 ==> r.1.out.Done?)
    decreases fuel, 2, 1
  {
    var t := Exempt(cfg, fuel, ctx, test, st);
    if !t.out.Done? then (false, t)
    else if t.out.status != (if until then 1 else 0) then (true, t)
    else (false, Tree(cfg, fuel, ctx, body, 0, t.st))
  }

  /** While and until; status is the body's last. */
  function Repeat(cfg: Config, fuel: nat, ctx: Context,
    until: bool, test: seq<Cmd>, body: seq<Cmd>, status: int, st: State): (r: Result)
    ensures Kept(cfg, ctx, st, r)
    decreases fuel, 3, 0
  {
    if fuel == 0 then Result(Stuck, st) else
    var (ended, r) := Round(cfg, fuel, ctx.(loops := ctx.loops + 1), until, test, body, st);
    if ended then Finish(status, r.st) else
    match r.out
    case Done(_) => Repeat(cfg, fuel - 1, ctx, until, test, body, r.st.last, r.st)
    case Stop(levels, again) =>
      if levels > 1 then Result(Stop(levels - 1, again), r.st)
      else if again then
        var now := if cfg.rolled then 0 else status;
        Repeat(cfg, fuel - 1, ctx, until, test, body, now, r.st)
      else Finish(r.st.last, r.st)
    case _ => r
  }

  /** A for loop; ran: whether a body has come to its end. */
  function Each(cfg: Config, fuel: nat, ctx: Context, words: seq<nat>, body: seq<Cmd>, ran: bool, st: State): (r: Result)
    ensures Kept(cfg, ctx, st, r)
    decreases fuel, 3, |words|
  {
    if words == [] then Finish(if ran then st.last else 0, st) else
    var inside := ctx.(loops := ctx.loops + 1);
    var r := Tree(cfg, fuel, inside, body, 0, st.(trace := st.trace + [Bound(words[0])]));
    match r.out
    case Done(_) => Each(cfg, fuel, ctx, words[1..], body, true, r.st)
    case Stop(levels, again) =>
      if levels > 1 then Result(Stop(levels - 1, again), r.st)
      else if again then Each(cfg, fuel, ctx, words[1..], body, ran, r.st)
      else Finish(if ran then r.st.last else 0, r.st)
    case _ => r
  }

  /** A function call: its own variables, its own $?, and a place for return. */
  function Function(cfg: Config, fuel: nat, ctx: Context, f: nat, st: State): (r: Result)
    requires f < |cfg.fns|
    ensures Kept(cfg, ctx, st, r)
    ensures !r.out.Stop? && !r.out.Leave? && !r.out.Ret?
    decreases fuel, 3, 0
  {
    var at := ctx.at.(vars := ctx.at.vars + [st.serial]);
    var inside := Context(at, 0, false, true, ctx.exempt);
    var r := Node(cfg, fuel, inside, cfg.fns[f], st.(serial := st.serial + 1, dollar := 0, last := 0));
    var back := r.st.(last := st.last);
    match r.out
    case Done(status) => Finish(status, back)
    case Ret(v) => Finish(Returned(v), back)
    case _ => Result(r.out, back)
  }

  /** (...): exit and return end here. */
  function Inner(cfg: Config, fuel: nat, ctx: Context, cs: seq<Cmd>, st: State): (r: Result)
    ensures Kept(cfg, ctx, st, r)
    ensures r.out.Done? || r.out.Stuck?
    decreases fuel, 3, 0
  {
    var at := ctx.at.(fds := ctx.at.fds + [st.serial], vars := ctx.at.vars + [st.serial + 1]);
    var inside := Context(at, 0, false, true, ctx.exempt);
    var r := Tree(cfg, fuel, inside, cs, 0, st.(serial := st.serial + 2, last := 0));
    var back := r.st.(last := st.last);
    match r.out
    case Done(_) => Finish(r.st.last, back)
    case Ret(v) => Finish(Short(Returned(v)), back)
    case Quit(v) => Finish(Short(Exited(v)), back)
    case _ => Result(r.out, back)
  }

  /** The lines of eval's argument. */
  function Lines(cfg: Config, fuel: nat, ctx: Context, lines: seq<Cmd>, st: State): (r: Result)
    ensures Kept(cfg, ctx, st, r)
    decreases fuel, 2, |lines|
  {
    if lines == [] then Result(Done(st.last), st) else
    var r := Tree(cfg, fuel, ctx, [lines[0]], 0, st);
    if r.out.Done? then Lines(cfg, fuel, ctx, lines[1..], r.st) else r
  }

  /** eval: the surroundings stay what they are. */
  function Evaluated(cfg: Config, fuel: nat, ctx: Context, lines: seq<Cmd>, st: State): (r: Result)
    ensures Kept(cfg, ctx, st, r)
    decreases fuel, 3, 0
  {
    var at := ctx.at.(srcs := ctx.at.srcs + [st.serial]);
    var r := Lines(cfg, fuel, ctx.(at := at), lines, st.(serial := st.serial + 1, last := 0));
    var back := r.st.(last := st.last);
    if r.out.Done? then Finish(r.out.status, back) else Result(r.out, back)
  }

  /** The lines of a script or file: each sets $? when it ends. */
  function Script(cfg: Config, fuel: nat, ctx: Context, lines: seq<Cmd>, st: State): (r: Result)
    ensures Kept(cfg, ctx, st, r)
    decreases fuel, 2, |lines|
  {
    if lines == [] then Result(Done(st.dollar), st) else
    var r := Tree(cfg, fuel, ctx, [lines[0]], 0, st.(last := 0));
    var back := r.st.(last := st.last);
    if r.out.Done? then Script(cfg, fuel, ctx, lines[1..], back.(dollar := Short(r.st.last))) else Result(r.out, back)
  }

  /** A sourced file: return and exit end here, a break with no loop left in the file goes on outside. */
  function File(cfg: Config, fuel: nat, ctx: Context, lines: seq<Cmd>, st: State): (r: Result)
    ensures Kept(cfg, ctx, st, r)
    ensures !r.out.Ret? && !r.out.Quit?
    decreases fuel, 3, 0
  {
    var at := ctx.at.(srcs := ctx.at.srcs + [st.serial]);
    var inside := Context(at, 0, true, true, ctx.exempt);
    var r := Script(cfg, fuel, inside, lines, st.(serial := st.serial + 1, last := 0));
    var back := r.st.(last := st.last);
    match r.out
    case Done(status) => Finish(if lines == [] then 0 else status, back)
    case Ret(v) => Finish(Returned(v), back)
    case Quit(v) => Finish(Exited(v), back)
    case Leave(n, again) => Leap(ctx, n, again, back.(dollar := 0))
    case _ => Result(r.out, back)
  }

  /** A whole script, from the shell's start. */
  function Main(cfg: Config, fuel: nat, lines: seq<Cmd>): Result {
    Script(cfg, fuel, Context(Stacks([], [], []), 0, false, false, false), lines, State([], 0, 0, 0, 0, None))
  }

  // One round of a loop, and what comes after it

  lemma RepeatNext(cfg: Config, fuel: nat, ctx: Context, u: bool, t: seq<Cmd>, d: seq<Cmd>, status: int, st: State)
    ensures Repeat(cfg, fuel, ctx, u, t, d, status, st) ==
            if fuel == 0 then Result(Stuck, st) else
            var (ended, r) := Round(cfg, fuel, ctx.(loops := ctx.loops + 1), u, t, d, st);
            if ended then Finish(status, r.st)
            else if r.out.Done? || (r.out.Stop? && r.out.levels <= 1 && r.out.again) then
              Repeat(cfg, fuel - 1, ctx, u, t, d, if r.out.Done? then r.st.last else if cfg.rolled then 0 else status, r.st)
            else if !r.out.Stop? then r
            else if r.out.levels > 1 then Result(Stop(r.out.levels - 1, r.out.again), r.st)
            else Finish(r.st.last, r.st)
  {
    hide Round;
  }

  lemma EachNone(cfg: Config, fuel: nat, ctx: Context, d: seq<Cmd>, ran: bool, st: State)
    ensures Each(cfg, fuel, ctx, [], d, ran, st) == Finish(if ran then st.last else 0, st)
  {
  }

  lemma EachNext(cfg: Config, fuel: nat, ctx: Context, ws: seq<nat>, d: seq<Cmd>, ran: bool, st: State)
    requires ws != []
    ensures var r := Tree(cfg, fuel, ctx.(loops := ctx.loops + 1), d, 0, st.(trace := st.trace + [Bound(ws[0])]));
            Each(cfg, fuel, ctx, ws, d, ran, st) ==
            if r.out.Done? || (r.out.Stop? && r.out.levels <= 1 && r.out.again) then
              Each(cfg, fuel, ctx, ws[1..], d, ran || r.out.Done?, r.st)
            else if !r.out.Stop? then r
            else if r.out.levels > 1 then Result(Stop(r.out.levels - 1, r.out.again), r.st)
            else Finish(if ran then r.st.last else 0, r.st)
  {
    hide Tree;
  }
}
