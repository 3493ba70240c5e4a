/** "set -e": when the shell's counter says what POSIX asks for, and where the shell stops. */
module ErrExit {
  import opened Wrappers
  import opened Commands

  /** The ways control may leave a command other than by its end: out of at most so many
      loops, or of any number, by return, by exit. */
  datatype Ways = Ways(levels: nat, any: bool, ret: bool, quit: bool)

  const NONE := Ways(0, false, false, false)

  function Inside(w: Ways): Ways { w.(levels := w.levels + 1) }

  /** A function lets no break and no return out. */
  function OfCall(fns: bool): Ways { Ways(0, true, true, fns) }

  /** A jump in c leaves c only in the ways w. `fns`: whether functions may exit. */
  predicate Leaves(c: Cmd, w: Ways, fns: bool) {
    match c
    case Simple(_) => true
    case Jump(n, _) => (w.any || n <= w.levels) && (n == 0 ==> w.quit)
    case Return(_) => w.ret
    case Exit(_) => w.quit
    case Group(cs) => AllLeave(cs, w, fns)
    case If(t, y, n) => AllLeave(t, w, fns) && AllLeave(y, w, fns) && AllLeave(n, w, fns)
    case Loop(_, t, b) => AllLeave(t, Inside(w), fns) && AllLeave(b, Inside(w), fns)
    case For(_, b) => AllLeave(b, Inside(w), fns)
    case AndOr(_, l, r) => Leaves(l, w, fns) && Leaves(r, w, fns)
    case Not(d) => Leaves(d, w, fns)
    case Time(d) => Leaves(d, w, fns)
    case Call(_) => fns ==> w.quit
    case Subshell(_) => true
    case Eval(ls) => AllLeave(ls, w, fns)
    case Source(ls) => AllLeave(ls, w.(ret := true, quit := true), fns)
    case Redirected(_, d) => Leaves(d, w, fns)
  }

  predicate AllLeave(cs: seq<Cmd>, w: Ways, fns: bool) {
    forall i | 0 <= i < |cs| :: Leaves(cs[i], w, fns)
  }

  /** fns: whether functions may exit. ends: whether an exit here ends the process, for no subshell and
      no sourced file is around. */
  datatype Exits = Exits(fns: bool, ends: bool)

  /** How a jump may leave an exempt part: only by ending the process. */
  function Out(x: Exits): Ways { NONE.(quit := x.ends) }

  /** No jump that lands leaves a condition, a left operand, a negated or a timed command. */
  predicate Contained(c: Cmd, x: Exits) {
    match c
    case Group(cs) => AllContained(cs, x)
    case If(t, y, n) => AllLeave(t, Out(x), x.fns) && AllContained(t, x) && AllContained(y, x) && AllContained(n, x)
    case Loop(_, t, b) => AllLeave(t, Out(x), x.fns) && AllContained(t, x) && AllContained(b, x)
    case For(_, b) => AllContained(b, x)
    case AndOr(_, l, r) => Leaves(l, Out(x), x.fns) && Contained(l, x) && Contained(r, x)
    case Not(d) => Leaves(d, Out(x), x.fns) && Contained(d, x)
    case Time(d) => Leaves(d, Out(x), x.fns) && Contained(d, x)
    case Subshell(cs) => AllContained(cs, x.(ends := false))
    case Eval(ls) => AllContained(ls, x)
    case Source(ls) => AllContained(ls, x.(ends := false))
    case Redirected(_, d) => Contained(d, x)
    case _ => true
  }

  predicate AllContained(cs: seq<Cmd>, x: Exits) {
    forall i | 0 <= i < |cs| :: Contained(cs[i], x)
  }

  /** The same of the functions, wherever they are called; only if `fns` may one of them exit. */
  predicate Tame(fs: seq<Cmd>, fns: bool) {
    && AllContained(fs, Exits(fns, false))
    && (!fns ==> forall i | 0 <= i < |fs| :: Leaves(fs[i], OfCall(false), false))
  }

  predicate Allowed(out: Outcome, w: Ways) {
    match out
    case Stop(k, _) => w.any || k <= w.levels
    case Leave(k, _) => w.any || k <= w.levels
    case Ret(_) => w.ret
    case Quit(_) => w.quit
    case _ => true
  }

  /** Two runs of the same, counted and scoped, that start alike. */
  predicate Twins(cfg: Config, a: Context, b: Context, st: State, su: State, x: Exits) {
    && !cfg.scoped && Tame(cfg.fns, x.fns)
    && a == b.(exempt := a.exempt)
    && su == st.(suppress := su.suppress)
    && st.suppress >= 0 && b.exempt == (st.suppress > 0)
  }

  /** ... and come out alike, the counter where it was unless the process has ended. */
  predicate Alike(x: Exits, b: Context, st: State, su: State, r: Result, q: Result, w: Ways) {
    && r.out == q.out
    && (r.out.Stuck? || (x.ends && r.out.Quit?) || r.st.suppress == st.suppress)
    && q.st == r.st.(suppress := su.suppress)
    && (b.exempt ==> Allowed(r.out, w))
  }

  function Scoped(cfg: Config): Config { cfg.(scoped := true) }

  lemma TreeAlike(cfg: Config, fuel: nat, a: Context, b: Context, cs: seq<Cmd>, ret: int, st: State, su: State, w: Ways, x: Exits)
    requires Twins(cfg, a, b, st, su, x) && AllContained(cs, x) && (b.exempt ==> AllLeave(cs, w, x.fns))
    ensures Alike(x, b, st, su, Tree(cfg, fuel, a, cs, ret, st), Tree(Scoped(cfg), fuel, b, cs, ret, su), w)
    ensures var out := Tree(cfg, fuel, a, cs, ret, st).out; (out.Stop? ==> out.levels >= 1) && (out.Leave? ==> a.loops == 0)
    decreases fuel, 1, |cs|
  {
    hide Node;
    if cs != [] {
      NodeAlike(cfg, fuel, a, b, cs[0], st, su, w, x);
      var r, q := Node(cfg, fuel, a, cs[0], st), Node(Scoped(cfg), fuel, b, cs[0], su);
      if r.out.Done? {
        var st1, su1 := r.st.(last := Short(r.out.status)), q.st.(last := Short(r.out.status));
        var k, l := Check(cfg, a, cs[0], r.out.status, st1), Check(Scoped(cfg), b, cs[0], r.out.status, su1);
        TreeAlike(cfg, fuel, a, b, cs[1..], r.out.status, k.st, l.st, w, x);
      }
    }
  }

  lemma NodeAlike(cfg: Config, fuel: nat, a: Context, b: Context, c: Cmd, st: State, su: State, w: Ways, x: Exits)
    requires Twins(cfg, a, b, st, su, x) && Contained(c, x) && (b.exempt ==> Leaves(c, w, x.fns))
    ensures Alike(x, b, st, su, Node(cfg, fuel, a, c, st), Node(Scoped(cfg), fuel, b, c, su), w)
    decreases fuel, 0, 0
  {
    hide Tree, Members, Exempt, Branch, Repeat, Each, Function, Inner, Evaluated, File, Kept, AllLeave, AllContained, Tame;
    if fuel > 0 {
      match c
      case Group(cs) => MembersAlike(cfg, fuel - 1, a, b, cs, 0, st, su, w, x);
      case If(t, y, n) => BranchAlike(cfg, fuel - 1, a, b, t, y, n, st, su, w, x);
      case Loop(u, t, d) => RepeatAlike(cfg, fuel - 1, a, b, u, t, d, 0, st, su, w, x);
      case For(ws, d) => EachAlike(cfg, fuel - 1, a, b, ws, d, false, st, su, w, x);
      case AndOr(_, _, _) => OperandAlike(cfg, fuel - 1, a, b, c, st, su, w, x);
      case Not(_) => OperandAlike(cfg, fuel - 1, a, b, c, st, su, w, x);
      case Time(_) => OperandAlike(cfg, fuel - 1, a, b, c, st, su, w, x);
      case Call(f) =>
        if f < |cfg.fns| {
          FunctionAlike(cfg, fuel - 1, a, b, f, st, su, w, x);
        }
      case Subshell(cs) => InnerAlike(cfg, fuel - 1, a, b, cs, st, su, w, x);
      case Eval(ls) => EvaluatedAlike(cfg, fuel - 1, a, b, ls, st, su, w, x);
      case Source(ls) => FileAlike(cfg, fuel - 1, a, b, ls, st, su, w, x);
      case Redirected(_, _) => RedirectedAlike(cfg, fuel - 1, a, b, c, st, su, w, x);
      case _ => LeafAlike(cfg, fuel, a, b, c, st, su, w, x);
    }
  }

  lemma RedirectedAlike(cfg: Config, fuel: nat, a: Context, b: Context, c: Cmd, st: State, su: State, w: Ways, x: Exits)
    requires Twins(cfg, a, b, st, su, x) && Contained(c, x) && (b.exempt ==> Leaves(c, w, x.fns)) && c.Redirected?
    ensures Alike(x, b, st, su, Node(cfg, fuel + 1, a, c, st), Node(Scoped(cfg), fuel + 1, b, c, su), w)
    decreases fuel, 3, 0
  {
    hide Kept, Tame;
    var at := a.at.(fds := a.at.fds + [st.serial]);
    var n := st.serial + 1;
    NodeAlike(cfg, fuel, a.(at := at), b.(at := at), c.cmd, st.(serial := n), su.(serial := n), w, x);
  }

  lemma LeafAlike(cfg: Config, fuel: nat, a: Context, b: Context, c: Cmd, st: State, su: State, w: Ways, x: Exits)
    requires Twins(cfg, a, b, st, su, x) && (b.exempt ==> Leaves(c, w, x.fns))
    requires IsLeaf(c)
    ensures Alike(x, b, st, su, Node(cfg, fuel, a, c, st), Node(Scoped(cfg), fuel, b, c, su), w)
  {
  }

  lemma OperandAlike(cfg: Config, fuel: nat, a: Context, b: Context, c: Cmd, st: State, su: State, w: Ways, x: Exits)
    requires Twins(cfg, a, b, st, su, x) && Contained(c, x) && (b.exempt ==> Leaves(c, w, x.fns))
    requires c.AndOr? || c.Not? || c.Time?
    ensures Alike(x, b, st, su, Node(cfg, fuel + 1, a, c, st), Node(Scoped(cfg), fuel + 1, b, c, su), w)
    decreases fuel, 3, 0
  {
    hide Tree, Exempt, Kept, Tame;
    var l := if c.AndOr? then c.left else c.cmd;
    ExemptAlike(cfg, fuel, a, b, [l], st, su, w, x);
    var r, q := Exempt(cfg, fuel, a, [l], st), Exempt(Scoped(cfg), fuel, b, [l], su);
    if r.out.Done? && c.AndOr? {
      TreeAlike(cfg, fuel, a, b, [c.right], 0, r.st, q.st, w, x);
    }
  }

  lemma MembersAlike(cfg: Config, fuel: nat, a: Context, b: Context, cs: seq<Cmd>, ret: int, st: State, su: State, w: Ways, x: Exits)
    requires Twins(cfg, a, b, st, su, x) && AllContained(cs, x) && (b.exempt ==> AllLeave(cs, w, x.fns))
    ensures Alike(x, b, st, su, Members(cfg, fuel, a, cs, ret, st), Members(Scoped(cfg), fuel, b, cs, ret, su), w)
    decreases fuel, 1, |cs|
  {
    hide Node;
    if cs != [] {
      NodeAlike(cfg, fuel, a, b, cs[0], st, su, w, x);
      var r, q := Node(cfg, fuel, a, cs[0], st), Node(Scoped(cfg), fuel, b, cs[0], su);
      if r.out.Done? {
        var st1, su1 := r.st.(dollar := Short(r.out.status)), q.st.(dollar := Short(r.out.status));
        var k, l := Check(cfg, a, cs[0], r.out.status, st1), Check(Scoped(cfg), b, cs[0], r.out.status, su1);
        MembersAlike(cfg, fuel, a, b, cs[1..], r.out.status, k.st, l.st, w, x);
      }
    }
  }

  /** What "set -e" exempts is counted up and down again: nothing jumps out of it and lands. */
  lemma ExemptAlike(cfg: Config, fuel: nat, a: Context, b: Context, cs: seq<Cmd>, st: State, su: State, w: Ways, x: Exits)
    requires Twins(cfg, a, b, st, su, x) && AllContained(cs, x) && AllLeave(cs, Out(x), x.fns)
    requires b.exempt ==> AllLeave(cs, w, x.fns)
    ensures Alike(x, b, st, su, Exempt(cfg, fuel, a, cs, st), Exempt(Scoped(cfg), fuel, b, cs, su), w)
    ensures var out := Exempt(cfg, fuel, a, cs, st).out; out.Done? || out.Stuck? || (x.ends && out.Quit?)
    decreases fuel, 2, 0
  {
    hide Tree, Tame, AllContained, AllLeave;
    var b1, st1 := b.(exempt := true), st.(suppress := st.suppress + 1);
    TreeAlike(cfg, fuel, a, b1, cs, 0, st1, su, Out(x), x);
    if b.exempt {
      TreeAlike(cfg, fuel, a, b1, cs, 0, st1, su, w, x);
    }
  }

  lemma BranchAlike(cfg: Config, fuel: nat, a: Context, b: Context, t: seq<Cmd>, y: seq<Cmd>, n: seq<Cmd>, st: State, su: State, w: Ways, x: Exits)
    requires Twins(cfg, a, b, st, su, x) && Contained(If(t, y, n), x) && (b.exempt ==> Leaves(If(t, y, n), w, x.fns))
    ensures Alike(x, b, st, su, Branch(cfg, fuel, a, t, y, n, st), Branch(Scoped(cfg), fuel, b, t, y, n, su), w)
    decreases fuel, 3, 0
  {
    hide Tree, Exempt, Kept;
    ExemptAlike(cfg, fuel, a, b, t, st, su, w, x);
    var r, q := Exempt(cfg, fuel, a, t, st), Exempt(Scoped(cfg), fuel, b, t, su);
    if r.out.Done? {
      if r.out.status == 0 {
        TreeAlike(cfg, fuel, a, b, y, 0, r.st, q.st, w, x);
      } else if n != [] && IsIf(n[0]) {
        if fuel > 0 {
          ThroughRedirections(n[0], w, x);
          BranchAlike(cfg, fuel - 1, a, b, TheIf(n[0]).test, TheIf(n[0]).yes, TheIf(n[0]).no, r.st, q.st, w, x);
        }
      } else {
        TreeAlike(cfg, fuel, a, b, n, 0, r.st, q.st, w, x);
      }
    }
  }

  lemma ThroughRedirections(c: Cmd, w: Ways, x: Exits)
    requires IsIf(c)
    ensures Contained(c, x) ==> Contained(TheIf(c), x)
    ensures Leaves(c, w, x.fns) ==> Leaves(TheIf(c), w, x.fns)
  {
    if c.Redirected? {
      ThroughRedirections(c.cmd, w, x);
    }
  }

  lemma RoundAlike(cfg: Config, fuel: nat, a: Context, b: Context, u: bool, t: seq<Cmd>, d: seq<Cmd>, st: State, su: State, w: Ways, x: Exits)
    requires Twins(cfg, a, b, st, su, x) && Contained(Loop(u, t, d), x) && (b.exempt ==> AllLeave(t, w, x.fns) && AllLeave(d, w, x.fns))
    ensures Alike(x, b, st, su, Round(cfg, fuel, a, u, t, d, st).1, Round(Scoped(cfg), fuel, b, u, t, d, su).1, w)
    ensures var out := Round(cfg, fuel, a, u, t, d, st).1.out; (out.Stop? ==> out.levels >= 1) && (out.Leave? ==> a.loops == 0)
    ensures Round(cfg, fuel, a, u, t, d, st).0 == Round(Scoped(cfg), fuel, b, u, t, d, su).0
    decreases fuel, 2, 1
  {
    hide Tree, Exempt, AllContained, Tame;
    ExemptAlike(cfg, fuel, a, b, t, st, su, w, x);
    var r, q := Exempt(cfg, fuel, a, t, st), Exempt(Scoped(cfg), fuel, b, t, su);
    if r.out.Done? {
      TreeAlike(cfg, fuel, a, b, d, 0, r.st, q.st, w, x);
    }
  }

  lemma RepeatAlike(cfg: Config, fuel: nat, a: Context, b: Context, u: bool, t: seq<Cmd>, d: seq<Cmd>, status: int, st: State, su: State, w: Ways, x: Exits)
    requires Twins(cfg, a, b, st, su, x) && Contained(Loop(u, t, d), x) && (b.exempt ==> Leaves(Loop(u, t, d), w, x.fns))
    ensures Alike(x, b, st, su, Repeat(cfg, fuel, a, u, t, d, status, st), Repeat(Scoped(cfg), fuel, b, u, t, d, status, su), w)
    decreases fuel, 3, 0
  {
    hide Repeat, Round, AllLeave, AllContained, Tame, Kept, Short, Finish, Alike;
    RepeatNext(cfg, fuel, a, u, t, d, status, st);
    RepeatNext(Scoped(cfg), fuel, b, u, t, d, status, su);
    if fuel == 0 {
      StuckAlike(x, b, st, su, w);
    } else {
      var a1, b1 := a.(loops := a.loops + 1), b.(loops := b.loops + 1);
      RoundAlike(cfg, fuel, a1, b1, u, t, d, st, su, Inside(w), x);
      var r, q := Round(cfg, fuel, a1, u, t, d, st).1, Round(Scoped(cfg), fuel, b1, u, t, d, su).1;
      var now := if r.out.Done? then r.st.last else if cfg.rolled then 0 else status;
      AfterRound(x, b, b1, st, su, r, q, w, status);
      if GoesOn(r.out) {
        RepeatAlike(cfg, fuel - 1, a, b, u, t, d, now, r.st, q.st, w, x);
        AlikeLater(x, b, st, su, r.st, q.st,
          Repeat(cfg, fuel - 1, a, u, t, d, now, r.st), Repeat(Scoped(cfg), fuel - 1, b, u, t, d, now, q.st), w);
      }
    }
  }

  predicate GoesOn(out: Outcome) {
    out.Done? || (out.Stop? && out.levels <= 1 && out.again)
  }

  lemma StuckAlike(x: Exits, b: Context, st: State, su: State, w: Ways)
    requires su == st.(suppress := su.suppress)
    ensures Alike(x, b, st, su, Result(Stuck, st), Result(Stuck, su), w)
  {
  }

  /** Outside of the loop. */
  lemma AfterRound(x: Exits, b: Context, b1: Context, st: State, su: State, r: Result, q: Result, w: Ways, status: int)
    requires b1.exempt == b.exempt && Alike(x, b1, st, su, r, q, Inside(w)) && !r.out.Leave? && (r.out.Stop? ==> r.out.levels >= 1)
    ensures r.out == q.out && r.st.last == q.st.last
    ensures GoesOn(r.out) ==> r.st.suppress == st.suppress && q.st == r.st.(suppress := su.suppress)
    ensures r.out.Done? ==> Alike(x, b, st, su, Finish(status, r.st), Finish(status, q.st), w)
    ensures r.out.Stop? ==> Alike(x, b, st, su, Finish(r.st.last, r.st), Finish(q.st.last, q.st), w)
    ensures r.out.Stop? && r.out.levels > 1 ==>
              Alike(x, b, st, su, Result(Stop(r.out.levels - 1, r.out.again), r.st), Result(Stop(q.out.levels - 1, q.out.again), q.st), w)
    ensures !r.out.Stop? ==> Alike(x, b, st, su, r, q, w)
  {
    hide Short;
  }

  lemma AlikeLater(x: Exits, b: Context, st: State, su: State, st1: State, su1: State, r: Result, q: Result, w: Ways)
    requires st1.suppress == st.suppress && su1.suppress == su.suppress && Alike(x, b, st1, su1, r, q, w)
    ensures Alike(x, b, st, su, r, q, w)
  {
  }

  lemma EachAlike(cfg: Config, fuel: nat, a: Context, b: Context, ws: seq<nat>, d: seq<Cmd>, ran: bool, st: State, su: State, w: Ways, x: Exits)
    requires Twins(cfg, a, b, st, su, x) && AllContained(d, x) && (b.exempt ==> AllLeave(d, Inside(w), x.fns))
    ensures Alike(x, b, st, su, Each(cfg, fuel, a, ws, d, ran, st), Each(Scoped(cfg), fuel, b, ws, d, ran, su), w)
    decreases fuel, 3, |ws|
  {
    hide Tree, AllLeave, AllContained, Tame, Kept;
    if ws != [] {
      var a1, b1 := a.(loops := a.loops + 1), b.(loops := b.loops + 1);
      var trace := st.trace + [Bound(ws[0])];
      TreeAlike(cfg, fuel, a1, b1, d, 0, st.(trace := trace), su.(trace := trace), Inside(w), x);
      var r, q := Tree(cfg, fuel, a1, d, 0, st.(trace := trace)), Tree(Scoped(cfg), fuel, b1, d, 0, su.(trace := trace));
      if r.out.Done? || r.out.Stop? {
        EachAlike(cfg, fuel, a, b, ws[1..], d, ran || r.out.Done?, r.st, q.st, w, x);
      }
    }
  }

  lemma FunctionAlike(cfg: Config, fuel: nat, a: Context, b: Context, f: nat, st: State, su: State, w: Ways, x: Exits)
    requires Twins(cfg, a, b, st, su, x) && f < |cfg.fns| && (b.exempt && x.fns ==> w.quit)
    ensures Alike(x, b, st, su, Function(cfg, fuel, a, f, st), Function(Scoped(cfg), fuel, b, f, su), w)
    decreases fuel, 3, 0
  {
    hide Node, Kept, Short, Returned, Leaves, Contained;
    var at := a.at.(vars := a.at.vars + [st.serial]);
    var a1, b1 := Context(at, 0, false, true, a.exempt), Context(at, 0, false, true, b.exempt);
    var st1 := st.(serial := st.serial + 1, dollar := 0, last := 0);
    var su1 := su.(serial := st.serial + 1, dollar := 0, last := 0);
    if x.fns {
      AnyWayOut(cfg.fns[f], OfCall(true), true);
    }
    NodeAlike(cfg, fuel, a1, b1, cfg.fns[f], st1, su1, OfCall(x.fns), x.(ends := false));
  }

  lemma {:induction false} AnyWayOut(c: Cmd, w: Ways, fns: bool)
    requires w.any && w.ret && w.quit
    ensures Leaves(c, w, fns)
  {
    match c
    case Group(cs) => AnyWaysOut(cs, w, fns);
    case If(t, y, n) =>
      AnyWaysOut(t, w, fns);
      AnyWaysOut(y, w, fns);
      AnyWaysOut(n, w, fns);
    case Loop(_, t, b) =>
      AnyWaysOut(t, Inside(w), fns);
      AnyWaysOut(b, Inside(w), fns);
    case For(_, b) => AnyWaysOut(b, Inside(w), fns);
    case AndOr(_, l, r) =>
      AnyWayOut(l, w, fns);
      AnyWayOut(r, w, fns);
    case Not(d) => AnyWayOut(d, w, fns);
    case Time(d) => AnyWayOut(d, w, fns);
    case Eval(ls) => AnyWaysOut(ls, w, fns);
    case Source(ls) => AnyWaysOut(ls, w, fns);
    case Redirected(_, d) => AnyWayOut(d, w, fns);
    case _ =>
  }

  lemma {:induction false} AnyWaysOut(cs: seq<Cmd>, w: Ways, fns: bool)
    requires w.any && w.ret && w.quit
    ensures AllLeave(cs, w, fns)
  {
    forall i | 0 <= i < |cs|
      ensures Leaves(cs[i], w, fns)
    {
      AnyWayOut(cs[i], w, fns);
    }
  }

  lemma InnerAlike(cfg: Config, fuel: nat, a: Context, b: Context, cs: seq<Cmd>, st: State, su: State, w: Ways, x: Exits)
    requires Twins(cfg, a, b, st, su, x) && AllContained(cs, x.(ends := false))
    ensures Alike(x, b, st, su, Inner(cfg, fuel, a, cs, st), Inner(Scoped(cfg), fuel, b, cs, su), w)
    decreases fuel, 3, 0
  {
    hide Tree, Tame, AllContained, Leaves, AllLeave, Kept, Short, Returned, Exited;
    var at := a.at.(fds := a.at.fds + [st.serial], vars := a.at.vars + [st.serial + 1]);
    var a1, b1 := Context(at, 0, false, true, a.exempt), Context(at, 0, false, true, b.exempt);
    AnyWaysOut(cs, Ways(0, true, true, true), x.fns);
    TreeAlike(cfg, fuel, a1, b1, cs, 0, st.(serial := st.serial + 2, last := 0), su.(serial := st.serial + 2, last := 0), Ways(0, true, true, true), x.(ends := false));
  }

  lemma LinesAlike(cfg: Config, fuel: nat, a: Context, b: Context, ls: seq<Cmd>, st: State, su: State, w: Ways, x: Exits)
    requires Twins(cfg, a, b, st, su, x) && AllContained(ls, x) && (b.exempt ==> AllLeave(ls, w, x.fns))
    ensures Alike(x, b, st, su, Lines(cfg, fuel, a, ls, st), Lines(Scoped(cfg), fuel, b, ls, su), w)
    decreases fuel, 2, |ls|
  {
    if ls != [] {
      TreeAlike(cfg, fuel, a, b, [ls[0]], 0, st, su, w, x);
      var r, q := Tree(cfg, fuel, a, [ls[0]], 0, st), Tree(Scoped(cfg), fuel, b, [ls[0]], 0, su);
      if r.out.Done? {
        LinesAlike(cfg, fuel, a, b, ls[1..], r.st, q.st, w, x);
      }
    }
  }

  lemma EvaluatedAlike(cfg: Config, fuel: nat, a: Context, b: Context, ls: seq<Cmd>, st: State, su: State, w: Ways, x: Exits)
    requires Twins(cfg, a, b, st, su, x) && AllContained(ls, x) && (b.exempt ==> AllLeave(ls, w, x.fns))
    ensures Alike(x, b, st, su, Evaluated(cfg, fuel, a, ls, st), Evaluated(Scoped(cfg), fuel, b, ls, su), w)
    decreases fuel, 3, 0
  {
    var at, n := a.at.(srcs := a.at.srcs + [st.serial]), st.serial + 1;
    LinesAlike(cfg, fuel, a.(at := at), b.(at := at), ls, st.(serial := n, last := 0), su.(serial := n, last := 0), w, x);
  }

  lemma ScriptAlike(cfg: Config, fuel: nat, a: Context, b: Context, ls: seq<Cmd>, st: State, su: State, w: Ways, x: Exits)
    requires Twins(cfg, a, b, st, su, x) && AllContained(ls, x) && (b.exempt ==> AllLeave(ls, w, x.fns))
    ensures Alike(x, b, st, su, Script(cfg, fuel, a, ls, st), Script(Scoped(cfg), fuel, b, ls, su), w)
    decreases fuel, 2, |ls|
  {
    hide Tree, Tame, Leaves, Contained, Kept, Short;
    if ls != [] {
      TreeAlike(cfg, fuel, a, b, [ls[0]], 0, st.(last := 0), su.(last := 0), w, x);
      var r, q := Tree(cfg, fuel, a, [ls[0]], 0, st.(last := 0)), Tree(Scoped(cfg), fuel, b, [ls[0]], 0, su.(last := 0));
      if r.out.Done? {
        var dollar := Short(r.st.last);
        ScriptAlike(cfg, fuel, a, b, ls[1..], r.st.(last := st.last, dollar := dollar), q.st.(last := su.last, dollar := dollar), w, x);
      }
    }
  }

  lemma FileAlike(cfg: Config, fuel: nat, a: Context, b: Context, ls: seq<Cmd>, st: State, su: State, w: Ways, x: Exits)
    requires Twins(cfg, a, b, st, su, x) && Contained(Source(ls), x) && (b.exempt ==> Leaves(Source(ls), w, x.fns))
    ensures Alike(x, b, st, su, File(cfg, fuel, a, ls, st), File(Scoped(cfg), fuel, b, ls, su), w)
    decreases fuel, 3, 0
  {
    hide Script, Short, Returned, Exited, Kept, AllContained, AllLeave, Tame;
    var at, n := a.at.(srcs := a.at.srcs + [st.serial]), st.serial + 1;
    var a1, b1 := Context(at, 0, true, true, a.exempt), Context(at, 0, true, true, b.exempt);
    ScriptAlike(cfg, fuel, a1, b1, ls, st.(serial := n, last := 0), su.(serial := n, last := 0), w.(ret := true, quit := true), x.(ends := false));
  }

  /** Over a whole script: where no jump that lands leaves what "set -e" exempts, the counter is the
      exemption; it is 0 at the end unless an exit in an exempt part ended the process. */
  lemma CounterIsScope(cfg: Config, fuel: nat, lines: seq<Cmd>, x: Exits)
    requires !cfg.scoped && Tame(cfg.fns, x.fns) && AllContained(lines, x)
    ensures var r, q := Main(cfg, fuel, lines), Main(Scoped(cfg), fuel, lines);
            && q == r.(st := r.st.(suppress := 0))
            && (r.out.Stuck? || r.st.suppress == 0 || (x.ends && r.out.Quit?))
  {
    var ctx := Context(Stacks([], [], []), 0, false, false, false);
    ScriptAlike(cfg, fuel, ctx, ctx, lines, State([], 0, 0, 0, 0, None), State([], 0, 0, 0, 0, None), Out(x), x);
  }

  /** `if exit; then :; fi` is such a script, although its run ends with the counter at 1. */
  lemma ExitInCondition(cfg: Config, fuel: nat)
    requires !cfg.scoped && fuel >= 2
    ensures var lines := [If([Exit(None)], [], [])];
            && AllContained(lines, Exits(false, true))
            && Main(cfg, fuel, lines).out == Quit(0) && Main(cfg, fuel, lines).st.suppress == 1
  {
    hide Tree, Script;
    var ctx, st := Context(Stacks([], [], []), 0, false, false, false), State([], 0, 0, 0, 0, None);
    var on := st.(suppress := 1);
    var c := If([Exit(None)], [], []);
    OneLine(cfg, fuel - 1, ctx, Exit(None), on);
    assert Exempt(cfg, fuel - 1, ctx, [Exit(None)], st) == Result(Quit(0), on);
    assert Node(cfg, fuel, ctx, c, st) == Result(Quit(0), on);
    FirstLine(cfg, fuel, ctx, c, [], st);
    assert [c] + [] == [c];
  }

  /** Without that: `while break; do :; done; false; next` under "set -e". The break leaves the
      condition without counting down, and the shell goes on after false. */
  lemma BreakInCondition(cfg: Config, fuel: nat)
    requires !cfg.scoped && cfg.errexit && fuel >= 2
    requires forall t :: cfg.oracle(t, 0) == 1 && cfg.oracle(t, 1) == 0
    ensures var lines := [Loop(false, [Jump(1, false)], []), Simple(0), Simple(1)];
            && |Main(cfg, fuel, lines).st.trace| == 2 && Main(cfg, fuel, lines).out == Done(0)
            && |Main(Scoped(cfg), fuel, lines).st.trace| == 1 && Main(Scoped(cfg), fuel, lines).out == Quit(1)
  {
    hide Node, Tree, Check, Script;
    var ctx := Context(Stacks([], [], []), 0, false, false, false);
    var st := State([], 0, 0, 0, 0, None);
    var loop := Loop(false, [Jump(1, false)], []);
    var on := st.(suppress := 1);
    var ran := on.(trace := on.trace + [Ran(0, ctx.at, 0)], dollar := 1);
    assert [loop, Simple(0), Simple(1)] == [loop] + ([Simple(0)] + ([Simple(1)] + []));
    WhileBreak(cfg, fuel, ctx, st);
    FirstLine(cfg, fuel, ctx, loop, [Simple(0)] + ([Simple(1)] + []), st);
    Utility(cfg, fuel, ctx, 0, on);
    FirstLine(cfg, fuel, ctx, Simple(0), [Simple(1)] + [], on);
    Utility(cfg, fuel, ctx, 1, ran);
    FirstLine(cfg, fuel, ctx, Simple(1), [], ran);
    ScriptEnds(cfg, fuel, ctx, ran.(trace := ran.trace + [Ran(1, ctx.at, 1)], dollar := 0));
    WhileBreak(Scoped(cfg), fuel, ctx, st);
    FirstLine(Scoped(cfg), fuel, ctx, loop, [Simple(0)] + ([Simple(1)] + []), st);
    Utility(Scoped(cfg), fuel, ctx, 0, st);
    FirstLine(Scoped(cfg), fuel, ctx, Simple(0), [Simple(1)] + [], st);
  }

  lemma Utility(cfg: Config, fuel: nat, ctx: Context, id: nat, st: State)
    requires fuel > 0
    ensures var status := cfg.oracle(st.trace, id);
            Node(cfg, fuel, ctx, Simple(id), st) ==
            Finish(status, st.(trace := st.trace + [Ran(id, ctx.at, st.dollar)]))
  {
  }

  lemma ScriptEnds(cfg: Config, fuel: nat, ctx: Context, st: State)
    ensures Script(cfg, fuel, ctx, [], st) == Result(Done(st.dollar), st)
  {
  }

  lemma FirstLine(cfg: Config, fuel: nat, ctx: Context, c: Cmd, rest: seq<Cmd>, st: State)
    requires st.last == 0
    ensures var r := Node(cfg, fuel, ctx, c, st);
            var status := if r.out.Done? then r.out.status else 0;
            var q := if !r.out.Done? then r
                     else if status == 0 || Suppressed(cfg, ctx, r.st) || !Opaque(c) then r.(st := r.st.(last := Short(status)))
                     else Result(if cfg.errexit then Quit(status) else Done(status),
                            r.st.(last := Short(status), failed := if r.st.failed.None? then Some(|r.st.trace|) else r.st.failed));
            Script(cfg, fuel, ctx, [c] + rest, st) ==
            if q.out.Done? then Script(cfg, fuel, ctx, rest, q.st.(last := 0, dollar := Short(status)))
            else Result(q.out, q.st.(last := 0))
  {
    OneLine(cfg, fuel, ctx, c, st);
    assert ([c] + rest)[1..] == rest;
  }

  lemma OneLine(cfg: Config, fuel: nat, ctx: Context, c: Cmd, st: State)
    ensures var r := Node(cfg, fuel, ctx, c, st);
            Tree(cfg, fuel, ctx, [c], 0, st) ==
            if r.out.Done? then Check(cfg, ctx, c, r.out.status, r.st.(last := Short(r.out.status))) else r
  {
  }

  lemma WhileBreak(cfg: Config, fuel: nat, ctx: Context, st: State)
    requires fuel >= 2 && st.last == 0
    ensures Node(cfg, fuel, ctx, Loop(false, [Jump(1, false)], []), st) ==
            Result(Done(0), st.(dollar := 0, suppress := if cfg.scoped then st.suppress else st.suppress + 1))
  {
    var inside, break_ := ctx.(loops := ctx.loops + 1), Jump(1, false);
    var counted := st.(suppress := st.suppress + 1);
    assert Node(cfg, fuel - 1, inside, break_, counted) == Result(Stop(1, false), counted);
    assert Node(cfg, fuel - 1, inside.(exempt := true), break_, st) == Result(Stop(1, false), st);
    OneLine(cfg, fuel - 1, inside, break_, counted);
    OneLine(cfg, fuel - 1, inside.(exempt := true), break_, st);
    var r := Result(Stop(1, false), if cfg.scoped then st else counted);
    assert Exempt(cfg, fuel - 1, inside, [break_], st) == r;
    assert Round(cfg, fuel - 1, inside, false, [break_], [], st) == (false, r);
    assert Repeat(cfg, fuel - 1, ctx, false, [break_], [], 0, st) ==
           Finish(0, st.(suppress := if cfg.scoped then st.suppress else st.suppress + 1));
  }
}
