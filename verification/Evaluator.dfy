/** The evaluator: a shell whose frames, scope stacks, environments and "set -e" counter are
    changed in place, and which leaves loops, functions and subshells by longjmp. A method that
    gets a Land signal returns it at once unless the frame it names is its own: that is the
    longjmp. Assertions are compiled out, as in the release build. */
module Evaluator {
  import opened Wrappers
  import opened Commands
  import opened Frames

  const LOOP := Frame(false, false, false, false, true, true, Stacks([], [], []))
  const CALL := Frame(false, false, false, true, false, true, Stacks([], [], []))
  const SUBSHELL := Frame(true, false, false, false, false, true, Stacks([], [], []))
  const EVAL := Frame(true, true, false, false, false, false, Stacks([], [], []))
  const SOURCE := Frame(true, false, true, false, false, true, Stacks([], [], []))

  /** eval_push's frame on m. */
  function Push(m: Machine, kind: Frame): Machine {
    Machine(m.frames + [kind.(saved := m.at)], m.slots + [Slot(0, 0, false)], m.at, m.envs)
  }

  lemma PushIsSound(m: Machine, kind: Frame)
    requires |m.slots| == |m.frames| && Chain(m.frames, m.at) && LoopsArePlain(m.frames)
    requires |m.envs| == Envs(m.frames + [kind])
    requires kind.loop ==> m.frames != [] && !kind.root && !kind.function_ && !kind.source
    ensures Sound(Push(m, kind)) && PushedOn(m, kind.(saved := m.at), Push(m, kind))
  {
    var f := kind.(saved := m.at);
    Pushed(m.frames, f);
    Pushed(m.frames, kind);
    assert (m.slots + [Slot(0, 0, false)])[..|m.slots|] == m.slots;
  }

  /** More levels on a scope stack keep the chain. */
  lemma Higher(F: seq<Frame>, at: Stacks, up: Stacks)
    requires Chain(F, at) && Under(at, up)
    ensures Chain(F, up)
  {
  }

  /** What is decided by a jump does not depend on where the scope stacks stand. */
  lemma AnyHeight(m0: Machine, m1: Machine, r: Result, sig: Signal, m: Machine)
    requires Sound(m0) && Sound(m1) && m1 == m0.(at := m1.at) && Agrees(m1, r, sig, m) && !r.out.Done?
    ensures Agrees(m0, r, sig, m)
  {
    hide Loops, LoopAt, FileAt, ReturnAt, ExitAt, Envs, Chain, Current;
  }

  /** The environments eval_exit has popped are those of the calls it went past. */
  predicate Popped(m0: Machine, m: Machine) {
    m == m0.(envs := m.envs) && 0 < |m.envs| <= |m0.envs| && m.envs == m0.envs[..|m.envs|]
  }

  lemma ExitArrives(m0: Machine, m1: Machine, t: nat, code: int, m: Machine)
    requires Sound(m0) && Popped(m0, m1) && t < |m0.frames| && |m1.envs| == Envs(m0.frames[..t + 1])
    requires m == Machine(m0.frames[..t + 1], m0.slots[..t + 1][t := m0.slots[t].(code := code)], m0.frames[t].saved, m1.envs)
    ensures ExitedTo(m0, t, m)
  {
    hide Envs, Chain, LoopsArePlain;
    assert m.slots[..t] == m0.slots[..t];
  }

  class Shell {
    const cfg: Config
    var frames: seq<Frame>
    var slots: seq<Slot>
    var fds: seq<nat>
    var vars: seq<nat>
    var srcs: seq<nat>
    var envs: seq<int>
    var serial: nat
    var suppress: int
    var trace: seq<Event>
    ghost var failed: Option<nat>

    constructor (cfg: Config)
      requires !cfg.scoped
      ensures this.cfg == cfg && Valid() && frames == []
      ensures Around(frames, Snap().at) == Context(Stacks([], [], []), 0, false, false, false)
      ensures Now() == State([], 0, 0, 0, 0, None)
    {
      this.cfg := cfg;
      frames, slots, fds, vars, srcs, envs := [], [], [], [], [], [0];
      serial, suppress, trace, failed := 0, 0, [], None;
    }

    ghost function Snap(): Machine
      reads this
    {
      Machine(frames, slots, Stacks(fds, vars, srcs), envs)
    }

    ghost predicate Valid()
      reads this
    {
      Sound(Snap()) && !cfg.scoped
    }

    ghost function Now(): State
      requires Valid()
      reads this
    {
      State(trace, Top(envs), LastOf(Snap()), suppress, serial, failed)
    }

    ghost function Here(): Context
      reads this
    {
      Around(frames, Snap().at)
    }

    /** From m0 the shell came to where it is with signal s, and that is what r says. */
    ghost predicate Follows(m0: Machine, r: Result, s: Signal)
      requires Sound(m0)
      reads this
    {
      && Agrees(m0, r, s, Snap())
      && trace == r.st.trace && serial == r.st.serial && suppress == r.st.suppress && failed == r.st.failed
    }

    /** eval_push */
    method EvalPush(kind: Frame)
      modifies this`frames, this`slots
      ensures Snap() == Push(old(Snap()), kind)
    {
      frames := frames + [kind.(saved := Stacks(fds, vars, srcs))];
      slots := slots + [Slot(0, 0, false)];
    }

    /** The three unwinding loops that eval_pop and the jumps share. */
    method Unwind(to: Stacks)
      requires Under(to, Snap().at)
      modifies this`fds, this`vars, this`srcs
      ensures Snap().at == to
    {
      while fds != to.fds
        invariant to.fds <= fds && to.vars <= vars && to.srcs <= srcs
        decreases |fds|
      {
        fds := Rest(fds);
      }
      while vars != to.vars
        invariant to.vars <= vars && to.srcs <= srcs && fds == to.fds
        decreases |vars|
      {
        vars := Rest(vars);
      }
      while srcs != [] && srcs != to.srcs
        invariant to.srcs <= srcs && fds == to.fds && vars == to.vars
        decreases |srcs|
      {
        srcs := Rest(srcs);
      }
    }

    /** eval_pop, for the frame at e. */
    method EvalPop(e: nat) returns (code: int)
      requires e < |frames| == |slots| && Under(frames[e].saved, Snap().at)
      modifies this`frames, this`slots, this`fds, this`vars, this`srcs
      ensures code == old(slots[e].code)
      ensures frames == old(frames[..e]) && slots == old(slots[..e]) && Snap().at == old(frames[e].saved)
    {
      code := slots[e].code;
      Unwind(frames[e].saved);
      frames, slots := frames[..e], slots[..e];
    }

    /** Landing at frame t: eval = t, and its saved positions. */
    method CutBack(t: nat)
      requires Valid() && t < |frames|
      modifies this`frames, this`slots, this`fds, this`vars, this`srcs
      ensures frames == old(frames[..t + 1]) && slots == old(slots[..t + 1]) && Snap().at == old(frames[t].saved)
    {
      SavedIsUnder(frames, Snap().at, t);
      Unwind(frames[t].saved);
      frames, slots := frames[..t + 1], slots[..t + 1];
    }

    /** The search of eval_jump: the loop to leave, or the sourced file that is in the way. */
    method FindLoop(levels: nat) returns (j: Option<nat>, sf: Option<nat>)
      requires levels > 0
      ensures j == if Loops(frames) > 0 then Some(LoopAt(frames, Min(levels, Loops(frames)))) else None
      ensures sf == if Loops(frames) == 0 then FileAt(frames) else None
    {
      BeneathStart(frames);
      var i: nat, left: nat := |frames|, levels;
      j, sf := None, None;
      while i > 0 && left > 0
        invariant i <= |frames| && left <= levels && sf.None?
        invariant Beneath(frames, i, levels - left)
        invariant if left == levels then j.None? else j == Some(LoopAt(frames, levels - left))
        decreases i
      {
        var f := frames[i - 1];
        if f.source {
          if j.None? {
            sf := Some(i - 1);
          }
          break;
        }
        if f.function_ || (f.root && !f.evl) {
          break;
        }
        BeneathStep(frames, i, levels - left);
        if f.jump && f.loop {
          j := Some(i - 1);
          left := left - 1;
        }
        i := i - 1;
      }
      if left > 0 {
        BeneathBoundary(frames, i, levels - left);
      }
    }

    /** eval_jump: break and continue. */
    method EvalJump(levels: nat, again: bool) returns (s: Signal)
      requires Valid() && frames != [] && levels > 0
      modifies this`frames, this`slots, this`fds, this`vars, this`srcs
      ensures if Loops(old(frames)) > 0 || FileAt(old(frames)).Some? then
                Follows(old(Snap()), Leap(old(Here()), levels, again, old(Now())), s)
              else Snap() == old(Snap()) && s == Back(0)
    {
      hide Loops, LoopAt, FileAt, ReturnAt, ExitAt, Envs, Chain, LoopsArePlain, Current;
      ghost var m0 := Snap();
      AtNow(m0, Now());
      var j, sf := FindLoop(levels);
      if j.None? && sf.Some? {
        var t := sf.value;
        SavedIsUnder(frames, Snap().at, t);
        slots := slots[t := slots[t].(pending := levels, again := again)];
        assert slots[..t] == m0.slots[..t];
        return Land(t, 1);
      }
      if j.Some? {
        CutBack(j.value);
        return Land(j.value, if again then 2 else 1);
      }
      return Back(0);
    }

    /** eval_return */
    method EvalReturn(value: nat) returns (s: Signal)
      requires Valid() && frames != []
      modifies this`frames, this`slots, this`fds, this`vars, this`srcs
      ensures if ReturnAt(old(frames)).Some? then Follows(old(Snap()), Result(Ret(value), old(Now())), s)
              else Snap() == old(Snap()) && s == Back(0)
    {
      ghost var m0 := Snap();
      AtNow(m0, Now());
      var i: nat := |frames|;
      assert frames[..i] == frames;
      while i > 0 && !(frames[i - 1].jump && (frames[i - 1].function_ || frames[i - 1].root))
        invariant i <= |frames| && ReturnAt(frames) == ReturnAt(frames[..i])
        modifies {}
      {
        assert Rest(frames[..i]) == frames[..i - 1];
        i := i - 1;
      }
      if i == 0 {
        return Back(0);
      }
      assert Top(frames[..i]) == frames[i - 1];
      CutBack(i - 1);
      return Land(i - 1, Landing(2 * value));
    }

    /** The search of eval_exit: the nearest subshell or sourced file. The environments of the
        calls on the way are popped. */
    method FindExit() returns (t: Option<nat>)
      requires Valid()
      modifies this`envs
      ensures t == ExitAt(frames) && Popped(old(Snap()), Snap())
      ensures t.Some? ==> |envs| == Envs(frames[..t.value + 1])
    {
      hide Chain, LoopsArePlain, Current;
      ghost var m0 := Snap();
      var i: nat := |frames|;
      assert frames[..i] == frames && envs[..|envs|] == envs;
      while i > 0 && !(frames[i - 1].jump && frames[i - 1].root)
        invariant i <= |frames|
        invariant ExitAt(frames) == ExitAt(frames[..i])
        invariant |envs| == Envs(frames[..i]) && Popped(m0, Snap())
        modifies this`envs
      {
        assert Rest(frames[..i]) == frames[..i - 1] && Top(frames[..i]) == frames[i - 1];
        if frames[i - 1].function_ {
          envs := Rest(envs);
        }
        i := i - 1;
      }
      assert i > 0 ==> Top(frames[..i]) == frames[i - 1];
      t := if i == 0 then None else Some(i - 1);
    }

    /** eval_exit, and the end of the process where it finds nobody to tell. */
    method EvalExit(code: int) returns (s: Signal)
      requires Valid()
      modifies this`frames, this`slots, this`fds, this`vars, this`srcs, this`envs
      ensures Follows(old(Snap()), Result(Quit(code), old(Now())), s)
    {
      hide Loops, LoopAt, FileAt, ReturnAt, ExitAt, Envs, Chain, LoopsArePlain, Current, ExitedTo;
      ghost var m0 := Snap();
      var t := FindExit();
      ghost var m1 := Snap();
      if t.None? {
        return Halted(code);
      }
      SavedIsUnder(frames, Snap().at, t.value);
      Unwind(frames[t.value].saved);
      frames, slots := frames[..t.value + 1], slots[..t.value + 1];
      slots := slots[t.value := slots[t.value].(code := Short(code))];
      ExitArrives(m0, m1, t.value, Short(code), Snap());
      return Land(t.value, Landing(2 * code + 1));
    }

    /** The shell stands where m0 did, but for the list's status and $?. */
    ghost predicate Since(m0: Machine)
      requires Sound(m0)
      reads this
    {
      Valid() && Snap() == At(m0, Now())
    }

    lemma Settled(m0: Machine, r: Result, s: Signal)
      requires Sound(m0) && m0.frames != [] && !cfg.scoped && r.out.Done? && Follows(m0, r, s)
      ensures Since(m0) && Now() == r.st && s == Back(r.out.status)
    {
      AtAt(m0, r.st, r.st);
    }

    lemma Onward(m0: Machine, st: State, r: Result, s: Signal)
      requires Sound(m0) && Sound(At(m0, st)) && Follows(At(m0, st), r, s)
      ensures Follows(m0, r, s) && (s.Back? <==> r.out.Done?)
    {
      Rebase(m0, st, r, s, Snap());
    }

    lemma Ended(m0: Machine, status: int)
      requires Sound(m0) && Since(m0)
      ensures Follows(m0, Result(Done(status), Now()), Back(status))
    {
    }

    /** $? of the running environment. */
    method SetDollar(status: int)
      requires Valid()
      modifies this`envs
      ensures Valid() && Now() == old(Now()).(dollar := Short(status)) && Snap() == At(old(Snap()), Now())
    {
      AtNow(Snap(), Now());
      AtAt(Snap(), Now(), Now().(dollar := Short(status)));
      envs := WithDollar(envs, Short(status));
    }

    /** The status the list of frame e remembers. */
    method SetLast(e: nat, status: int)
      requires Valid() && frames != [] && e == Current(frames)
      modifies this`slots
      ensures Valid() && Now() == old(Now()).(last := Short(status)) && Snap() == At(old(Snap()), Now())
    {
      AtNow(Snap(), Now());
      AtAt(Snap(), Now(), Now().(last := Short(status)));
      slots := slots[e := slots[e].(code := Short(status))];
    }

    /** The "set -e" test that eval_tree and eval_cmdlist share. */
    method CheckExit(c: Cmd, status: int) returns (s: Signal)
      requires Valid() && frames != []
      modifies this
      ensures Follows(old(Snap()), Check(cfg, old(Here()), c, status, old(Now())), s)
    {
      hide Loops, LoopAt, FileAt, ReturnAt, ExitAt, Envs, Chain, LoopsArePlain, Current;
      AtNow(Snap(), Now());
      if status != 0 && suppress == 0 && Opaque(c) {
        failed := if failed.None? then Some(|trace|) else failed;
        if cfg.errexit {
          s := EvalExit(status);
          return;
        }
      }
      return Back(status);
    }

    /** eval_tree, walking a list. */
    method EvalTree(fuel: nat, e: nat, cs: seq<Cmd>) returns (s: Signal)
      requires Valid() && frames != [] && e == Current(frames)
      modifies this
      ensures Follows(old(Snap()), Tree(cfg, fuel, old(Here()), cs, 0, old(Now())), s)
      decreases fuel, 1, |cs|
    {
      hide Loops, LoopAt, FileAt, ReturnAt, ExitAt, Envs, Chain, LoopsArePlain, Node, Agrees, Current;
      ghost var m0, ctx := Snap(), Here();
      ghost var goal := Tree(cfg, fuel, ctx, cs, 0, Now());
      AtNow(m0, Now());
      var ret, i: nat := 0, 0;
      while i < |cs|
        invariant i <= |cs| && Since(m0) && goal == Tree(cfg, fuel, ctx, cs[i..], ret, Now())
      {
        ghost var st := Now();
        s := EvalNode(fuel, e, cs[i]);
        ghost var r := Node(cfg, fuel, ctx, cs[i], st);
        Onward(m0, st, r, s);
        if !s.Back? {
          return;
        }
        Settled(m0, r, s);
        ret := s.status;
        SetLast(e, ret);
        st := Now();
        AtAt(m0, r.st, st);
        s := CheckExit(cs[i], ret);
        Onward(m0, st, Check(cfg, ctx, cs[i], ret, st), s);
        if !s.Back? {
          return;
        }
        Settled(m0, Check(cfg, ctx, cs[i], ret, st), s);
        assert cs[i..][1..] == cs[i + 1..];
        i := i + 1;
      }
      Ended(m0, ret);
      return Back(ret);
    }

    /** eval_cmdlist, walking a group. */
    method EvalCmdlist(fuel: nat, e: nat, cs: seq<Cmd>) returns (s: Signal)
      requires Valid() && frames != [] && e == Current(frames)
      modifies this
      ensures Follows(old(Snap()), Members(cfg, fuel, old(Here()), cs, 0, old(Now())), s)
      decreases fuel, 1, |cs|
    {
      hide Loops, LoopAt, FileAt, ReturnAt, ExitAt, Envs, Chain, LoopsArePlain, Node, Agrees, Current;
      ghost var m0, ctx := Snap(), Here();
      ghost var goal := Members(cfg, fuel, ctx, cs, 0, Now());
      AtNow(m0, Now());
      var ret, i: nat := 0, 0;
      while i < |cs|
        invariant i <= |cs| && Since(m0) && goal == Members(cfg, fuel, ctx, cs[i..], ret, Now())
      {
        ghost var st := Now();
        s := EvalNode(fuel, e, cs[i]);
        ghost var r := Node(cfg, fuel, ctx, cs[i], st);
        Onward(m0, st, r, s);
        if !s.Back? {
          return;
        }
        Settled(m0, r, s);
        ret := s.status;
        SetDollar(ret);
        st := Now();
        AtAt(m0, r.st, st);
        s := CheckExit(cs[i], ret);
        Onward(m0, st, Check(cfg, ctx, cs[i], ret, st), s);
        if !s.Back? {
          return;
        }
        Settled(m0, Check(cfg, ctx, cs[i], ret, st), s);
        assert cs[i..][1..] == cs[i + 1..];
        i := i + 1;
      }
      Ended(m0, ret);
      return Back(ret);
    }

    /** What eval_if, eval_loop, eval_and_or and eval_time do around a part "set -e" exempts.
        A jump out of it does not come back here to count down. */
    method EvalExempt(fuel: nat, e: nat, cs: seq<Cmd>) returns (s: Signal)
      requires Valid() && frames != [] && e == Current(frames)
      modifies this
      ensures Follows(old(Snap()), Exempt(cfg, fuel, old(Here()), cs, old(Now())), s)
      decreases fuel, 2, 0
    {
      hide Loops, LoopAt, FileAt, ReturnAt, ExitAt, Envs, Chain, LoopsArePlain, Tree, Current;
      suppress := suppress + 1;
      s := EvalTree(fuel, e, cs);
      if s.Back? {
        suppress := suppress - 1;
      }
    }

    /** eval_and_or: &&, || and !. */
    method EvalAndOr(fuel: nat, e: nat, c: Cmd) returns (s: Signal)
      requires Valid() && frames != [] && e == Current(frames) && (c.AndOr? || c.Not?)
      modifies this
      ensures Follows(old(Snap()), Node(cfg, fuel + 1, old(Here()), c, old(Now())), s)
      decreases fuel, 3, 0
    {
      hide Loops, LoopAt, FileAt, ReturnAt, ExitAt, Envs, Chain, LoopsArePlain, Tree, Exempt, Current, Agrees;
      ghost var m0, ctx, st := Snap(), Here(), Now();
      AtNow(m0, st);
      var left := if c.AndOr? then c.left else c.cmd;
      s := EvalExempt(fuel, e, [left]);
      ghost var r := Exempt(cfg, fuel, ctx, [left], st);
      Onward(m0, st, r, s);
      if !s.Back? {
        return;
      }
      Settled(m0, r, s);
      var ret := s.status;
      if c.AndOr? && (ret != 0) == c.or {
        st := Now();
        s := EvalTree(fuel, e, [c.right]);
        Onward(m0, st, Tree(cfg, fuel, ctx, [c.right], 0, st), s);
        return;
      }
      if c.Not? {
        ret := if ret == 0 then 1 else 0;
      }
      Ended(m0, ret);
      return Back(ret);
    }

    /** eval_if: an else part that begins with an if is taken for an elif. */
    method EvalIf(fuel: nat, e: nat, test: seq<Cmd>, yes: seq<Cmd>, no: seq<Cmd>) returns (s: Signal)
      requires Valid() && frames != [] && e == Current(frames)
      modifies this
      ensures Follows(old(Snap()), Branch(cfg, fuel, old(Here()), test, yes, no, old(Now())), s)
      decreases fuel, 3, 0
    {
      hide Loops, LoopAt, FileAt, ReturnAt, ExitAt, Envs, Chain, LoopsArePlain, Tree, Exempt, Current, Agrees;
      ghost var m0, ctx := Snap(), Here();
      ghost var goal := Branch(cfg, fuel, ctx, test, yes, no, Now());
      AtNow(m0, Now());
      var nif, n: nat := If(test, yes, no), fuel;
      while true
        invariant nif.If? && n <= fuel && Since(m0)
        invariant goal == Branch(cfg, n, ctx, nif.test, nif.yes, nif.no, Now())
        decreases n
      {
        ghost var st := Now();
        s := EvalExempt(n, e, nif.test);
        ghost var r := Exempt(cfg, n, ctx, nif.test, st);
        Onward(m0, st, r, s);
        if !s.Back? {
          return;
        }
        Settled(m0, r, s);
        if s.status != 0 && nif.no != [] && IsIf(nif.no[0]) {
          if n == 0 {
            Stops(m0, Result(Stuck, Now()));
            return Stalled;
          }
          nif, n := TheIf(nif.no[0]), n - 1;
          continue;
        }
        var branch := if s.status != 0 then nif.no else nif.yes;
        st := Now();
        s := EvalTree(n, e, branch);
        Onward(m0, st, Tree(cfg, n, ctx, branch, 0, st), s);
        return;
      }
    }

    lemma Stops(m0: Machine, r: Result)
      requires Sound(m0) && Valid() && r == Result(Stuck, Now())
      ensures Follows(m0, r, Stalled)
    {
    }

    /** Through a loop's frame, seen from the loop. */
    lemma JumpedLoop(m0: Machine, f: Frame, m1: Machine, r: Result, s: Signal)
      requires Sound(m0) && m0.frames != [] && Sound(m1) && !cfg.scoped && Follows(m1, r, s) && !r.out.Done?
      requires PushedOn(m0, f, m1) && f.saved == m0.at && m1.envs == m0.envs
      requires f.loop && f.jump && !f.root && !f.source && !f.function_
      ensures !s.Back?
      ensures r.out.Stop? && r.out.levels <= 1 ==>
                s == Land(|m0.frames|, if r.out.again then 2 else 1) && Since(m1) && Now() == r.st
      ensures r.out.Stop? && r.out.levels > 1 ==>
                Follows(m0, Result(Stop(r.out.levels - 1, r.out.again), r.st), s) && !(s.Land? && s.frame == |m0.frames|)
      ensures !r.out.Stop? ==> Follows(m0, r, s) && !(s.Land? && s.frame == |m0.frames|)
    {
      hide Loops, LoopAt, FileAt, ReturnAt, ExitAt, Envs, Chain, LoopsArePlain, CutTo, ExitedTo, LeftFile, Current;
      LoopLift(m0, f, m1, r, s, Snap());
      AtAt(m1, r.st, r.st);
    }

    /** Where the loop's frame is gone. */
    lemma LoopGone(m0: Machine, f: Frame, m1: Machine, st: State, m: Machine)
      requires Sound(m0) && m0.frames != [] && Sound(m1) && PushedOn(m0, f, m1) && m1.envs == m0.envs && f.loop
      requires m == Machine(m1.frames[..|m0.frames|], At(m1, st).slots[..|m0.frames|], m0.at, At(m1, st).envs)
      ensures m == At(m0, st)
    {
      AtPushed(m0, f, m1, st);
    }

    /** eval_push for a loop: the list it runs is still its caller's. */
    method PushLoop(e: nat)
      requires Valid() && frames != [] && e == Current(frames)
      modifies this`frames, this`slots
      ensures Valid() && Snap() == Push(old(Snap()), LOOP) && Now() == old(Now())
      ensures PushedOn(old(Snap()), LOOP.(saved := old(Snap()).at), Snap()) && e == Current(frames)
      ensures Here() == old(Here()).(loops := old(Here()).loops + 1)
      ensures frames[|frames| - 1] == LOOP.(saved := Snap().at)
    {
      LooksThrough(frames, LOOP);
      LooksThrough(frames, LOOP.(saved := Snap().at));
      PushIsSound(Snap(), LOOP);
      EvalPush(LOOP);
    }

    /** The ordinary end of a loop: the status of its frame, which is 0 unless a body ran to its end. */
    method EndLoop(ghost m0: Machine, ghost m1: Machine, e: nat, status: Option<int>) returns (s: Signal)
      requires Sound(m0) && m0.frames != [] && e == Current(m0.frames) && m1 == Push(m0, LOOP)
      requires Sound(m1) && Since(m1)
      modifies this`frames, this`slots, this`fds, this`vars, this`srcs, this`envs
      ensures Follows(m0, Finish(if status.Some? then status.value else 0, old(Now())), s)
    {
      hide Loops, LoopAt, FileAt, ReturnAt, ExitAt, Envs, Chain, LoopsArePlain;
      ghost var f, st := LOOP.(saved := m0.at), Now();
      assert m1.slots[..|m0.slots|] == m0.slots;
      LooksThrough(m0.frames, f);
      LoopGone(m0, f, m1, st, Machine(frames[..|m0.frames|], slots[..|m0.frames|], m0.at, envs));
      var me := |frames| - 1;
      assert frames[me] == f && slots[me].code == 0;
      if status.Some? {
        slots := slots[me := slots[me].(code := status.value)];
      }
      var code := EvalPop(me);
      envs := WithDollar(envs, Short(code));
      return Back(code);
    }

    /** Where a break lands: the loop's frame goes, and the status is what its list last had. */
    method BreakLoop(ghost m0: Machine, ghost m1: Machine, e: nat) returns (s: Signal)
      requires Sound(m0) && m0.frames != [] && e == Current(m0.frames) && m1 == Push(m0, LOOP)
      requires Sound(m1) && Since(m1)
      modifies this`frames, this`slots, this`envs
      ensures Follows(m0, Finish(old(Now()).last, old(Now())), s)
    {
      hide Loops, LoopAt, FileAt, ReturnAt, ExitAt, Envs, Chain, LoopsArePlain;
      ghost var f, st := LOOP.(saved := m0.at), Now();
      assert m1.slots[..|m0.slots|] == m0.slots;
      LooksThrough(m0.frames, f);
      LoopGone(m0, f, m1, st, Machine(frames[..|m0.frames|], slots[..|m0.frames|], m0.at, envs));
      var me := |frames| - 1;
      frames, slots := frames[..me], slots[..me];
      envs := WithDollar(envs, Short(slots[e].code));
      return Back(slots[e].code);
    }

    /** The test and, unless it ends the loop, the body. */
    method LoopRound(fuel: nat, e: nat, until: bool, test: seq<Cmd>, body: seq<Cmd>) returns (s: Signal, ended: bool)
      requires Valid() && frames != [] && e == Current(frames)
      modifies this
      ensures Follows(old(Snap()), Round(cfg, fuel, old(Here()), until, test, body, old(Now())).1, s)
      ensures ended == Round(cfg, fuel, old(Here()), until, test, body, old(Now())).0
      ensures ended ==> Round(cfg, fuel, old(Here()), until, test, body, old(Now())).1.out.Done?
      decreases fuel, 2, 1
    {
      hide Loops, LoopAt, FileAt, ReturnAt, ExitAt, Envs, Chain, LoopsArePlain, Tree, Exempt, Current, Agrees;
      ghost var m0, ctx, st := Snap(), Here(), Now();
      AtNow(m0, st);
      s := EvalExempt(fuel, e, test);
      ghost var t := Exempt(cfg, fuel, ctx, test, st);
      Onward(m0, st, t, s);
      ended := false;
      if s.Back? {
        Settled(m0, t, s);
        if s.status != (if until then 1 else 0) {
          return s, true;
        }
        st := Now();
        s := EvalTree(fuel, e, body);
        Onward(m0, st, Tree(cfg, fuel, ctx, body, 0, st), s);
      }
    }

    /** eval_loop: while and until. */
    method EvalLoop(fuel: nat, e: nat, until: bool, test: seq<Cmd>, body: seq<Cmd>) returns (s: Signal)
      requires Valid() && frames != [] && e == Current(frames)
      modifies this
      ensures Follows(old(Snap()), Repeat(cfg, fuel, old(Here()), until, test, body, 0, old(Now())), s)
      decreases fuel, 3, 0
    {
      hide Kept, Landing, Short;
      hide Loops, LoopAt, FileAt, ReturnAt, ExitAt, Envs, Chain, LoopsArePlain, Round, Current, Agrees, At, Finish;
      hide WithLast, WithDollar, PushedOn, LastOf, Short, Push;
      ghost var m0, ctx := Snap(), Here();
      ghost var goal := Repeat(cfg, fuel, ctx, until, test, body, 0, Now());
      PushLoop(e);
      ghost var m1, inside, f := Snap(), Here(), LOOP.(saved := m0.at);
      AtNow(m1, Now());
      var me := |frames| - 1;
      var status, ran, n: nat := 0, false, fuel;
      while true
        invariant n <= fuel && Since(m1)
        invariant goal == Repeat(cfg, n, ctx, until, test, body, if ran then status else 0, Now())
        decreases n
      {
        ghost var st := Now();
        if n == 0 {
          Stops(m0, goal);
          return Stalled;
        }
        var ended;
        s, ended := LoopRound(n, e, until, test, body);
        ghost var r := Round(cfg, n, inside, until, test, body, st).1;
        Onward(m1, st, r, s);
        if ended {
          Settled(m1, r, s);
          break;
        }
        if s.Back? {
          Settled(m1, r, s);
          SlotIsLast();
          ran, status, n := true, slots[e].code, n - 1;
        } else {
          JumpedLoop(m0, f, m1, r, s);
          if !(s.Land? && s.frame == me) {
            return;
          }
          if s.value % 2 == 1 {
            s := BreakLoop(m0, m1, e);
            return;
          }
          if cfg.rolled {
            ran, status := false, 0;
          }
          n := n - 1;
        }
      }
      s := EndLoop(m0, m1, e, if ran then Some(status) else None);
    }

    /** eval_for: setjmp is called anew in every iteration. */
    method EvalFor(fuel: nat, e: nat, words: seq<nat>, body: seq<Cmd>) returns (s: Signal)
      requires Valid() && frames != [] && e == Current(frames)
      modifies this
      ensures Follows(old(Snap()), Each(cfg, fuel, old(Here()), words, body, false, old(Now())), s)
      decreases fuel, 3, 0
    {
      hide Kept, Landing, Short;
      hide Loops, LoopAt, FileAt, ReturnAt, ExitAt, Envs, Chain, LoopsArePlain, Tree, Current, Agrees, At, Finish;
      ghost var m0, ctx := Snap(), Here();
      ghost var goal := Each(cfg, fuel, ctx, words, body, false, Now());
      PushLoop(e);
      ghost var m1, inside, f := Snap(), Here(), LOOP.(saved := m0.at);
      AtNow(m1, Now());
      var me := |frames| - 1;
      var i, ran := 0, false;
      while i < |words|
        invariant i <= |words| && Since(m1)
        invariant goal == Each(cfg, fuel, ctx, words[i..], body, ran, Now())
      {
        ghost var was := Now();
        trace := trace + [Bound(words[i])];
        ghost var st := Now();
        AtAt(m1, was, st);
        AtNow(Snap(), st);
        s := EvalTree(fuel, e, body);
        ghost var r := Tree(cfg, fuel, inside, body, 0, st);
        Onward(m1, st, r, s);
        assert words[i..][1..] == words[i + 1..];
        if s.Back? {
          Settled(m1, r, s);
          ran := true;
        } else {
          JumpedLoop(m0, f, m1, r, s);
          if !(s.Land? && s.frame == me) {
            return;
          }
          if s.value != 2 {
            break;
          }
        }
        i := i + 1;
      }
      SlotIsLast();
      s := EndLoop(m0, m1, e, if ran then Some(slots[e].code) else None);
    }

    lemma SlotIsLast()
      requires Valid() && frames != []
      ensures slots[Current(frames)].code == Now().last
    {
    }

    /** Everything pushed is popped again; the running $? may have changed. */
    ghost predicate Home(m0: Machine)
      requires m0.envs != []
      reads this
    {
      Snap() == m0.(envs := envs) && |envs| == |m0.envs| && Rest(envs) == Rest(m0.envs)
    }

    lemma Finished(m0: Machine, r: Result, status: int)
      requires Sound(m0) && !cfg.scoped && Home(m0) && r == Finish(status, r.st) && r.st.last == LastOf(m0)
      requires trace == r.st.trace && serial == r.st.serial && suppress == r.st.suppress && failed == r.st.failed
      ensures Valid() && Now().(dollar := Short(status)) == r.st
      ensures Agrees(m0, r, Back(status), At(Snap(), r.st)) && At(Snap(), r.st) == At(m0, r.st)
    {
      assert WithDollar(envs, r.st.dollar) == WithDollar(m0.envs, r.st.dollar);
    }

    lemma WentPast(m0: Machine, r: Result, q: Result, s: Signal)
      requires Sound(m0) && r.out == q.out && ((r.out.Quit? && Follows(m0, r, s)) || (r.out.Stuck? && s == Stalled))
      requires trace == q.st.trace && serial == q.st.serial && suppress == q.st.suppress && failed == q.st.failed
      ensures Follows(m0, q, s)
    {
    }

    /** At the frame of a call, a subshell or a file: what came back to it, and what went past. */
    lemma AtBoundary(m0: Machine, f: Frame, m1: Machine, r: Result, s: Signal)
      requires Sound(m0) && Sound(m1) && Follows(m1, r, s)
      requires PushedOn(m0, f, m1) && Boundary(f) && f.jump && !f.loop && (f.function_ || f.root)
      requires |m1.envs| >= |m0.envs| && m1.envs[..|m0.envs| - 1] == Rest(m0.envs)
      ensures !r.out.Stop? && (r.out.Leave? ==> f.source) && (r.out.Stuck? ==> s == Stalled)
      ensures s.Back? <==> r.out.Done?
      ensures r.out.Done? || r.out.Ret? || r.out.Leave? || (r.out.Quit? && f.root) ==>
                Reached(m0, m1, Snap()) && (r.out.Done? || s == Land(|m0.frames|, JumpValue(r.out)))
      ensures r.out.Done? ==> s == Back(r.out.status) && slots[|m0.frames|].code == r.st.last && Top(envs) == r.st.dollar
      ensures r.out.Done? || r.out.Ret? || (r.out.Quit? && f.root) ==> slots[|m0.frames|].pending == Top(m1.slots).pending
      ensures r.out.Leave? ==> slots[|m0.frames|].pending == r.out.levels > 0 && slots[|m0.frames|].again == r.out.again
      ensures r.out.Quit? && !f.root ==> Follows(m0, r, s) && !(s.Land? && s.frame == |m0.frames|)
    {
      hide Loops, LoopAt, FileAt, ReturnAt, ExitAt, Envs, Chain, CutTo, ExitedTo, LeftFile;
      if r.out.Done? {
        DoneReached(m0, f, m1, r.st);
      } else {
        BoundaryLift(m0, f, m1, r, s, Snap());
      }
    }

    /** eval_pop of the frame pushed on m0, and of the environment that came with it. */
    method Leave(ghost m0: Machine, ghost m1: Machine, me: nat, env: bool)
      requires |m0.slots| == |m0.frames| == me && m1.frames != [] && Reached(m0, m1, Snap()) && m0.frames == Rest(m1.frames)
      requires m0.envs != [] && |m1.envs| == |m0.envs| + if env then 1 else 0
      requires m1.envs[..|m0.envs| - 1] == Rest(m0.envs) && (env ==> m0.envs == Rest(m1.envs))
      modifies this`frames, this`slots, this`fds, this`vars, this`srcs, this`envs
      ensures frames == m0.frames && slots == m0.slots && Snap().at == Top(m1.frames).saved
      ensures |envs| == |m0.envs| && Rest(envs) == Rest(m0.envs) && (env ==> envs == m0.envs)
      ensures !env ==> envs == old(envs)
    {
      assert frames[..me + 1][me] == frames[me] && frames[..me + 1][..me] == frames[..me];
      var _ := EvalPop(me);
      if env {
        envs := Rest(envs);
      }
    }

    /** eval_push of a frame that lists run in. */
    method Enter(kind: Frame) returns (me: nat)
      requires |slots| == |frames| && Chain(frames, Snap().at) && LoopsArePlain(frames) && !cfg.scoped
      requires |envs| == Envs(frames + [kind]) && !kind.loop
      modifies this`frames, this`slots
      ensures Valid() && Snap() == Push(old(Snap()), kind) && me == |frames| - 1 == Current(frames)
      ensures PushedOn(old(Snap()), kind.(saved := Snap().at), Snap())
      ensures Now() == State(trace, Top(envs), 0, suppress, serial, failed)
      ensures Boundary(kind) && kind.jump && (kind.function_ || kind.root) ==>
                Here() == Context(Snap().at, 0, kind.source, true, false)
      ensures (!Boundary(kind) || old(frames) == []) && !kind.jump && !kind.source ==> Here() == old(Here())
    {
      LooksThrough(frames, kind);
      LooksThrough(frames, kind.(saved := Snap().at));
      PushIsSound(Snap(), kind);
      EvalPush(kind);
      me := |frames| - 1;
    }

    /** What exec_command pushes for a call. */
    method OpenCall() returns (me: nat)
      requires Valid() && frames != []
      modifies this
      ensures Valid() && me == |frames| - 1 == |old(frames)| == Current(frames)
      ensures PushedOn(old(Snap()), CALL.(saved := Snap().at), Snap()) && Snap().envs == old(envs) + [0]
      ensures Snap().at == old(Snap().at).(vars := old(vars) + [old(serial)])
      ensures Here() == Context(Snap().at, 0, false, true, false)
      ensures Now() == old(Now()).(serial := old(serial) + 1, dollar := 0, last := 0) && At(Snap(), Now()) == Snap()
    {
      hide Loops, LoopAt, FileAt, ReturnAt, ExitAt, Envs, Chain, LoopsArePlain, Current;
      ghost var m0 := Snap();
      Higher(frames, m0.at, m0.at.(vars := vars + [serial]));
      vars, serial, envs := vars + [serial], serial + 1, envs + [0];
      LooksThrough(frames, CALL);
      me := Enter(CALL);
      AtNow(Snap(), Now());
    }

    /** A function call by exec_command, and $? as its simple command leaves it. */
    method CallFunction(fuel: nat, f: nat) returns (s: Signal)
      requires Valid() && frames != [] && f < |cfg.fns|
      modifies this
      ensures Follows(old(Snap()), Function(cfg, fuel, old(Here()), f, old(Now())), s)
      decreases fuel, 3, 0
    {
      hide Kept, Landing, Short;
      hide Loops, LoopAt, FileAt, ReturnAt, ExitAt, Envs, Chain, LoopsArePlain, Node, Current, Agrees, At, LastOf;
      ghost var m0 := Snap();
      ghost var goal := Function(cfg, fuel, Here(), f, Now());
      var me := OpenCall();
      ghost var m1, inside, st := Snap(), Here(), Now();
      s := EvalNode(fuel, me, cfg.fns[f]);
      ghost var r := Node(cfg, fuel, inside, cfg.fns[f], st);
      AtBoundary(m0, Top(m1.frames), m1, r, s);
      var ret;
      if s.Back? {
        ret := s.status;
      } else if s.Land? && s.frame == me {
        ret := s.value / 2;
      } else {
        WentPast(m0, r, goal, s);
        return;
      }
      Leave(m0, m1, me, true);
      vars := Rest(vars);
      Finished(m0, goal, ret);
      SetDollar(ret);
      return Back(ret);
    }

    /** What eval_subshell pushes. */
    method OpenSubshell() returns (me: nat)
      requires Valid() && frames != []
      modifies this
      ensures Valid() && me == |frames| - 1 == |old(frames)| == Current(frames)
      ensures PushedOn(old(Snap()), SUBSHELL.(saved := Snap().at), Snap()) && Snap().envs == old(envs) + [old(Top(envs))]
      ensures Snap().at == old(Snap().at).(fds := old(fds) + [old(serial)], vars := old(vars) + [old(serial) + 1])
      ensures Here() == Context(Snap().at, 0, false, true, false)
      ensures Now() == old(Now()).(serial := old(serial) + 2, last := 0) && At(Snap(), Now()) == Snap()
    {
      hide Loops, LoopAt, FileAt, ReturnAt, ExitAt, Envs, Chain, LoopsArePlain, Current;
      ghost var m0 := Snap();
      Higher(frames, m0.at, m0.at.(fds := fds + [serial], vars := vars + [serial + 1]));
      fds, vars, serial := fds + [serial], vars + [serial + 1], serial + 2;
      envs := envs + [Top(envs)];
      LooksThrough(frames, SUBSHELL);
      me := Enter(SUBSHELL);
      AtNow(Snap(), Now());
    }

    /** eval_subshell, in the same process: exit and return end here. */
    method EvalSubshell(fuel: nat, cs: seq<Cmd>) returns (s: Signal)
      requires Valid() && frames != []
      modifies this
      ensures Follows(old(Snap()), Inner(cfg, fuel, old(Here()), cs, old(Now())), s)
      decreases fuel, 3, 0
    {
      hide Kept, Landing, Short;
      hide Loops, LoopAt, FileAt, ReturnAt, ExitAt, Envs, Chain, LoopsArePlain, Tree, Current, Agrees, At, LastOf;
      ghost var m0 := Snap();
      ghost var goal := Inner(cfg, fuel, Here(), cs, Now());
      var me := OpenSubshell();
      ghost var m1, inside, st := Snap(), Here(), Now();
      s := EvalTree(fuel, me, cs);
      ghost var r := Tree(cfg, fuel, inside, cs, 0, st);
      AtBoundary(m0, Top(m1.frames), m1, r, s);
      if s.Land? && s.frame == me {
        slots := slots[me := slots[me].(code := Short(s.value / 2))];
      } else if !s.Back? {
        WentPast(m0, r, goal, s);
        return;
      }
      var ret := slots[me].code;
      Leave(m0, m1, me, true);
      vars := Rest(vars);
      fds := Rest(fds);
      Finished(m0, goal, ret);
      SetDollar(ret);
      return Back(ret);
    }

    /** What builtin_eval pushes. */
    method OpenEval() returns (me: nat)
      requires Valid() && frames != []
      modifies this
      ensures Valid() && me == |frames| - 1 == |old(frames)| == Current(frames) && |envs| == |old(envs)|
      ensures PushedOn(old(Snap()), EVAL.(saved := Snap().at), Snap()) && Snap().envs == old(envs)
      ensures Snap().at == old(Snap().at).(srcs := old(srcs) + [old(serial)])
      ensures Here() == old(Here()).(at := Snap().at)
      ensures Now() == old(Now()).(serial := old(serial) + 1, last := 0) && At(Snap(), Now()) == Snap()
    {
      hide Loops, LoopAt, FileAt, ReturnAt, ExitAt, Envs, Chain, LoopsArePlain, Current;
      ghost var m0 := Snap();
      Higher(frames, m0.at, m0.at.(srcs := srcs + [serial]));
      srcs, serial := srcs + [serial], serial + 1;
      LooksThrough(frames, EVAL);
      me := Enter(EVAL);
      AtNow(Snap(), Now());
    }

    /** builtin_eval: a frame that break, continue, return and exit look through. */
    method BuiltinEval(fuel: nat, lines: seq<Cmd>) returns (s: Signal)
      requires Valid() && frames != []
      modifies this
      ensures Follows(old(Snap()), Evaluated(cfg, fuel, old(Here()), lines, old(Now())), s)
      decreases fuel, 3, 0
    {
      hide Kept, Landing, Short;
      hide Loops, LoopAt, FileAt, ReturnAt, ExitAt, Envs, Chain, LoopsArePlain, Tree, Current, Agrees, At, LastOf;
      ghost var m0, ctx, st0 := Snap(), Here(), Now();
      var me := OpenEval();
      ghost var m1, inside := Snap(), Here();
      ghost var goal := Lines(cfg, fuel, inside, lines, Now());
      var i := 0;
      while i < |lines|
        invariant i <= |lines| && Since(m1) && goal == Lines(cfg, fuel, inside, lines[i..], Now())
      {
        ghost var st := Now();
        s := EvalTree(fuel, me, [lines[i]]);
        ghost var r := Tree(cfg, fuel, inside, [lines[i]], 0, st);
        Onward(m1, st, r, s);
        if !s.Back? {
          PassLift(m0, Top(m1.frames), m1, r, r.st.(last := st0.last), s, Snap());
          return;
        }
        Settled(m1, r, s);
        assert lines[i..][1..] == lines[i + 1..];
        i := i + 1;
      }
      DoneReached(m0, Top(m1.frames), m1, Now());
      var ret := slots[me].code;
      Leave(m0, m1, me, false);
      srcs := Rest(srcs);
      Finished(m0, Evaluated(cfg, fuel, ctx, lines, st0), ret);
      SetDollar(ret);
      return Back(ret);
    }

    /** sh_loop, line after line of a script or a sourced file, each in a frame of its own. */
    method ShLoop(fuel: nat, lines: seq<Cmd>) returns (s: Signal)
      requires Valid() && (frames == [] || Top(frames).source)
      modifies this
      ensures Follows(old(Snap()), Script(cfg, fuel, old(Here()), lines, old(Now())), s)
      decreases fuel, 2, |lines|
    {
      hide Kept, Landing, Short;
      hide Loops, LoopAt, FileAt, ReturnAt, ExitAt, Chain, LoopsArePlain, Tree, Current, Agrees, At, LastOf;
      ghost var m0, ctx := Snap(), Here();
      ghost var goal := Script(cfg, fuel, ctx, lines, Now());
      AtNow(m0, Now());
      var i := 0;
      while i < |lines|
        invariant i <= |lines| && Since(m0) && Now().last == LastOf(m0)
        decreases |lines| - i
        invariant goal == Script(cfg, fuel, ctx, lines[i..], Now())
      {
        ghost var st, mi := Now(), Snap();
        var kind := Frame(true, frames != [], false, false, false, false, Stacks([], [], []));
        Pushed(frames, kind);
        var me := Enter(kind);
        ghost var m1 := Snap();
        AtNow(m1, Now());
        s := EvalTree(fuel, me, [lines[i]]);
        ghost var r := Tree(cfg, fuel, ctx, [lines[i]], 0, st.(last := 0));
        LineDone(mi, m1, r, s);
        if !s.Back? {
          PassLift(mi, Top(m1.frames), m1, r, r.st.(last := st.last), s, Snap());
          Onward(m0, st, Result(r.out, r.st.(last := st.last)), s);
          return;
        }
        var code := slots[me].code;
        Leave(mi, m1, me, false);
        Finished(mi, Result(Done(code), r.st.(last := st.last, dollar := Short(code))), code);
        SetDollar(code);
        AtAt(m0, st, Now());
        assert lines[i..][1..] == lines[i + 1..];
        i := i + 1;
      }
      Ended(m0, Top(envs));
      return Back(Top(envs));
    }

    /** A line's status becomes $?. */
    lemma LineDone(m0: Machine, m1: Machine, r: Result, s: Signal)
      requires Sound(m0) && Sound(m1) && m1.frames != [] && PushedOn(m0, Top(m1.frames), m1) && !Top(m1.frames).loop
      requires Follows(m1, r, s)
      ensures r.out.Done? <==> s.Back?
      ensures r.out.Done? ==> Reached(m0, m1, Snap()) && slots[|m0.frames|].code == r.st.last && Top(envs) == r.st.dollar
    {
      if r.out.Done? {
        DoneReached(m0, Top(m1.frames), m1, r.st);
      }
    }

    /** What builtin_source pushes. */
    method OpenSource() returns (me: nat)
      requires Valid() && frames != []
      modifies this
      ensures Valid() && me == |frames| - 1 == |old(frames)| && Top(frames) == SOURCE.(saved := Snap().at)
      ensures PushedOn(old(Snap()), Top(frames), Snap()) && envs == old(envs) && Top(slots).pending == 0
      ensures Snap().at == old(Snap().at).(srcs := old(srcs) + [old(serial)])
      ensures Here() == Context(Snap().at, 0, true, true, false)
      ensures Now() == old(Now()).(serial := old(serial) + 1, last := 0) && At(Snap(), Now()) == Snap()
    {
      hide Loops, LoopAt, FileAt, ReturnAt, ExitAt, Envs, Chain, LoopsArePlain, Current;
      ghost var m0 := Snap();
      Higher(frames, m0.at, m0.at.(srcs := srcs + [serial]));
      srcs, serial := srcs + [serial], serial + 1;
      LooksThrough(frames, SOURCE);
      me := Enter(SOURCE);
      AtNow(Snap(), Now());
    }

    /** builtin_source. A break that ran off the file is asked again of the caller's frames. */
    method BuiltinSource(fuel: nat, lines: seq<Cmd>) returns (s: Signal)
      requires Valid() && frames != []
      modifies this
      ensures Follows(old(Snap()), File(cfg, fuel, old(Here()), lines, old(Now())), s)
      decreases fuel, 3, 0
    {
      hide Kept, Landing;
      hide Loops, LoopAt, FileAt, ReturnAt, ExitAt, Envs, Chain, LoopsArePlain, Script, Current, Agrees, At, LastOf;
      ghost var m0, ctx, st0 := Snap(), Here(), Now();
      ghost var goal := File(cfg, fuel, ctx, lines, st0);
      var me := OpenSource();
      ghost var m1, inside, st := Snap(), Here(), Now();
      s := ShLoop(fuel, lines);
      ghost var r := Script(cfg, fuel, inside, lines, st);
      AtBoundary(m0, Top(m1.frames), m1, r, s);
      var ret;
      if s.Back? {
        ret := if lines == [] then 0 else s.status;
      } else if s.Land? && s.frame == me {
        ret := s.value / 2;
      } else {
        WentPast(m0, r, goal, s);
        return;
      }
      var levels, again := slots[me].pending, slots[me].again;
      Leave(m0, m1, me, false);
      srcs := Rest(srcs);
      ghost var back := r.st.(last := st0.last, dollar := Short(ret));
      Finished(m0, Result(Done(ret), back), ret);
      SetDollar(ret);
      s := Resume(m0, levels, again, ret);
    }

    /** The tail of builtin_source: a break that is still to be done, or the file's status. */
    method Resume(ghost m0: Machine, levels: nat, again: bool, ret: int) returns (s: Signal)
      requires Sound(m0) && Since(m0) && frames != []
      modifies this
      ensures levels == 0 ==> Follows(m0, Result(Done(ret), old(Now())), s)
      ensures levels > 0 && ret == 0 && old(Now()).dollar == 0 ==> Follows(m0, Leap(old(Here()), levels, again, old(Now())), s)
    {
      hide Loops, LoopAt, FileAt, ReturnAt, ExitAt, Envs, Chain, LoopsArePlain, Current, Agrees, At, LastOf;
      if levels > 0 {
        ghost var ctx, st := Here(), Now();
        s := EvalJump(levels, again);
        if ctx.loops > 0 || ctx.file {
          Onward(m0, st, Leap(ctx, levels, again, st), s);
        }
        if !s.Back? {
          return;
        }
      }
      Ended(m0, ret);
      return Back(ret);
    }

    /** eval_node, with the simple commands that are control flow of their own. */
    method EvalNode(fuel: nat, e: nat, c: Cmd) returns (s: Signal)
      requires Valid() && frames != [] && e == Current(frames)
      modifies this
      ensures Follows(old(Snap()), Node(cfg, fuel, old(Here()), c, old(Now())), s)
      decreases fuel, 0, 0
    {
      hide Loops, LoopAt, FileAt, ReturnAt, ExitAt, Envs, Chain, LoopsArePlain, Current, Agrees, At, LastOf;
      hide Tree, Members, Exempt, Branch, Repeat, Each, Function, Inner, Evaluated, File;
      ghost var m0, ctx, st := Snap(), Here(), Now();
      AtNow(m0, st);
      if fuel == 0 {
        Stops(m0, Result(Stuck, st));
        return Stalled;
      }
      match c
      case Group(cs) => s := EvalCmdlist(fuel - 1, e, cs);
      case If(test, yes, no) => s := EvalIf(fuel - 1, e, test, yes, no);
      case Loop(until, test, body) => s := EvalLoop(fuel - 1, e, until, test, body);
      case For(words, body) => s := EvalFor(fuel - 1, e, words, body);
      case AndOr(_, _, _) => s := EvalAndOr(fuel - 1, e, c);
      case Not(_) => s := EvalAndOr(fuel - 1, e, c);
      case Time(d) => s := EvalExempt(fuel - 1, e, [d]);
      case Subshell(cs) => s := EvalSubshell(fuel - 1, cs);
      case Eval(lines) => s := BuiltinEval(fuel - 1, lines);
      case Source(lines) => s := BuiltinSource(fuel - 1, lines);
      case Redirected(id, d) => s := EvalRedirected(fuel - 1, e, id, d);
      case Call(f) =>
        if f < |cfg.fns| {
          s := CallFunction(fuel - 1, f);
        } else {
          s := Complete(127);
        }
      case _ => s := EvalBuiltin(c);
    }

    /** The end of eval_simple_command. */
    method Complete(status: int) returns (s: Signal)
      requires Valid() && frames != []
      modifies this`envs
      ensures Follows(old(Snap()), Finish(status, old(Now())), s)
    {
      hide Agrees;
      SetDollar(status);
      Ended(old(Snap()), status);
      return Back(status);
    }

    /** Utilities, and break, continue, return and exit. */
    method EvalBuiltin(c: Cmd) returns (s: Signal)
      requires Valid() && frames != [] && IsLeaf(c)
      modifies this
      ensures Follows(old(Snap()), Node(cfg, 1, old(Here()), c, old(Now())), s)
    {
      hide Loops, LoopAt, FileAt, ReturnAt, ExitAt, Envs, Chain, LoopsArePlain, Current, Agrees, At, LastOf;
      ghost var m0, ctx, st := Snap(), Here(), Now();
      AtNow(m0, st);
      match c
      case Simple(id) =>
        var status := cfg.oracle(trace, id);
        trace := trace + [Ran(id, Stacks(fds, vars, srcs), Top(envs))];
        s := Complete(status);
      case Jump(levels, again) =>
        if levels > 0 {
          s := EvalJump(levels, again);
          if ctx.loops > 0 || ctx.file {
            Onward(m0, st, Leap(ctx, levels, again, st), s);
          }
          if s.Back? {
            s := Complete(0);
          }
        } else if cfg.interactive {
          s := Complete(1);
        } else {
          s := EvalExit(1);
        }
      case Return(v) =>
        var value := if v.Some? then v.value else Top(envs) % 0x100;
        s := EvalReturn(value);
        if ctx.canReturn {
          Onward(m0, st, Result(Ret(value), st), s);
        }
        if s.Back? {
          s := Complete(0);
        }
      case Exit(v) =>
        s := EvalExit((if v.Some? then v.value else Top(envs)) % 0x100);
    }

    /** eval_command's redirections: a level of the fd stack around the command, which is not run if one
        of them fails. */
    method EvalRedirected(fuel: nat, e: nat, id: nat, c: Cmd) returns (s: Signal)
      requires Valid() && frames != [] && e == Current(frames)
      modifies this
      ensures Follows(old(Snap()), Node(cfg, fuel + 1, old(Here()), Redirected(id, c), old(Now())), s)
      decreases fuel, 3, 0
    {
      hide Loops, LoopAt, FileAt, ReturnAt, ExitAt, Envs, Chain, LoopsArePlain, Current, Agrees, At;
      ghost var m0 := Snap();
      Higher(frames, m0.at, m0.at.(fds := fds + [serial]));
      fds, serial := fds + [serial], serial + 1;
      ghost var m1, inside, st := Snap(), Here(), Now();
      if !cfg.opens(trace, id) {
        fds := Rest(fds);
        AtNow(m0, st);
        Ended(m0, 1);
        return Back(1);
      }
      s := EvalNode(fuel, e, c);
      ghost var r := Node(cfg, fuel, inside, c, st);
      AtNow(m1, st);
      Onward(m1, st, r, s);
      if s.Back? {
        Settled(m1, r, s);
        fds := Rest(fds);
        SameBelow(m0, m1, r.st);
        Ended(m0, s.status);
      } else {
        AnyHeight(m0, m1, r, s, Snap());
      }
    }

    lemma SameBelow(m0: Machine, m1: Machine, st: State)
      requires Sound(m0) && Sound(m1) && m1 == m0.(at := m1.at) && !cfg.scoped && m0.frames != []
      requires Snap() == At(m1, st).(at := m0.at)
      ensures Since(m0) && LastOf(Snap()) == st.last && Top(envs) == st.dollar
    {
      AtAt(m0, st, st);
    }

    /** A shell started on a script. */
    static method Run(cfg: Config, fuel: nat, lines: seq<Cmd>) returns (s: Signal, trace: seq<Event>)
      requires !cfg.scoped
      ensures trace == Main(cfg, fuel, lines).st.trace
      ensures match Main(cfg, fuel, lines).out
              case Done(status) => s == Back(status)
              case Quit(code) => s == Halted(code)
              case Stuck => s == Stalled
              case _ => false
    {
      var sh := new Shell(cfg);
      s := sh.ShLoop(fuel, lines);
      trace := sh.trace;
    }
  }
}
