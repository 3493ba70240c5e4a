/** The evaluator's frame list, searched from the top the way break, return and exit do,
    and what it means that a run of the machine agrees with an outcome. */
module Frames {
  import opened Wrappers
  import opened Commands

  /** A frame as eval_push leaves it. jump: a setjmp waits here. */
  datatype Frame = Frame(
    root: bool, evl: bool, source: bool, function_: bool, loop: bool, jump: bool, saved: Stacks)

  /** The fields of a frame that change after it is pushed. */
  datatype Slot = Slot(code: int, pending: nat, again: bool)

  /** How a part of the evaluator gives back control: by returning a status, by a longjmp
      to a frame, by ending the process, or not at all. */
  datatype Signal = Back(status: int) | Land(frame: nat, value: int) | Halted(code: int) | Stalled

  /** The evaluator's global stacks: frames, their slots, the three scope stacks and the
      $? of every shell environment. */
  datatype Machine = Machine(frames: seq<Frame>, slots: seq<Slot>, at: Stacks, envs: seq<int>)

  function Top<T>(s: seq<T>): T requires s != [] { s[|s| - 1] }

  function Rest<T>(s: seq<T>): seq<T> requires s != [] { s[..|s| - 1] }

  /** A frame that break and continue do not look behind. */
  predicate Boundary(f: Frame) {
    f.source || f.function_ || (f.root && !f.evl)
  }

  function Loops(F: seq<Frame>): nat {
    if F == [] || Boundary(Top(F)) then 0
    else Loops(Rest(F)) + if Top(F).jump && Top(F).loop then 1 else 0
  }

  /** The k-th loop frame from the top. */
  function LoopAt(F: seq<Frame>, k: nat): (t: nat)
    requires 1 <= k <= Loops(F)
    ensures t < |F|
  {
    if Top(F).jump && Top(F).loop then
      if k == 1 then |F| - 1 else LoopAt(Rest(F), k - 1)
    else LoopAt(Rest(F), k)
  }

  /** The sourced file that bounds the search, if it is one that does. */
  function FileAt(F: seq<Frame>): (t: Option<nat>)
    ensures t.Some? ==> t.value < |F| && F[t.value].source
  {
    if F == [] then None
    else if Top(F).source then Some(|F| - 1)
    else if Boundary(Top(F)) then None
    else FileAt(Rest(F))
  }

  function ReturnAt(F: seq<Frame>): (t: Option<nat>)
    ensures t.Some? ==> t.value < |F|
  {
    if F == [] then None
    else if Top(F).jump && (Top(F).function_ || Top(F).root) then Some(|F| - 1)
    else ReturnAt(Rest(F))
  }

  function ExitAt(F: seq<Frame>): (t: Option<nat>)
    ensures t.Some? ==> t.value < |F|
  {
    if F == [] then None
    else if Top(F).jump && Top(F).root then Some(|F| - 1)
    else ExitAt(Rest(F))
  }

  /** How many shell environments these frames stand on: a call and a subshell have their own. */
  function Envs(F: seq<Frame>): (n: nat)
    ensures n > 0
  {
    if F == [] then 1
    else Envs(Rest(F)) + if Top(F).function_ || (Top(F).root && Top(F).jump && !Top(F).source) then 1 else 0
  }

  /** The frame the running list belongs to: loops run their parts in their caller's. */
  function Current(F: seq<Frame>): (t: nat)
    ensures F != [] ==> t < |F|
  {
    if F == [] then 0
    else if Top(F).loop && |F| > 1 then Current(Rest(F))
    else |F| - 1
  }

  predicate Under(a: Stacks, b: Stacks) {
    a.fds <= b.fds && a.vars <= b.vars && a.srcs <= b.srcs
  }

  /** Every saved position is an ancestor of the later ones and of the present one. */
  predicate Chain(F: seq<Frame>, at: Stacks) {
    F == [] || (Under(Top(F).saved, at) && Chain(Rest(F), Top(F).saved))
  }

  predicate LoopsArePlain(F: seq<Frame>) {
    forall i | 0 <= i < |F| && F[i].loop :: i > 0 && !F[i].root && !F[i].function_ && !F[i].source
  }

  predicate Sound(m: Machine) {
    && |m.slots| == |m.frames|
    && |m.envs| == Envs(m.frames)
    && Chain(m.frames, m.at)
    && LoopsArePlain(m.frames)
  }

  function LastOf(m: Machine): int
    requires |m.slots| == |m.frames|
  {
    if m.frames == [] then 0 else m.slots[Current(m.frames)].code
  }

  function WithLast(F: seq<Frame>, slots: seq<Slot>, x: int): (r: seq<Slot>)
    requires |slots| == |F|
    ensures |r| == |F|
  {
    if F == [] then slots else slots[Current(F) := slots[Current(F)].(code := x)]
  }

  function WithDollar(envs: seq<int>, x: int): (r: seq<int>)
    requires envs != []
    ensures |r| == |envs|
  {
    envs[|envs| - 1 := x]
  }

  /** m with the status and $? of st. */
  function At(m: Machine, st: State): (r: Machine)
    requires Sound(m)
    ensures r.frames == m.frames && r.at == m.at && |r.slots| == |m.slots| && |r.envs| == |m.envs|
  {
    m.(slots := WithLast(m.frames, m.slots, st.last), envs := WithDollar(m.envs, st.dollar))
  }

  /** The surroundings these frames stand for. */
  function Around(F: seq<Frame>, at: Stacks): Context {
    Context(at, Loops(F), FileAt(F).Some?, ReturnAt(F).Some?, false)
  }

  /** Landed at frame t with everything above it gone. */
  predicate CutTo(m0: Machine, t: nat, m: Machine)
    requires Sound(m0) && t < |m0.frames|
  {
    && m.frames == m0.frames[..t + 1]
    && m.slots == m0.slots[..t + 1]
    && m.at == m0.frames[t].saved
    && m.envs == m0.envs
  }

  /** From m0 the machine came to m with this signal, and that is what r says. */
  predicate Agrees(m0: Machine, r: Result, sig: Signal, m: Machine)
    requires Sound(m0)
  {
    var F := m0.frames;
    match r.out
    case Done(status) => sig == Back(status) && m == At(m0, r.st)
    case Stop(k, again) =>
      && 1 <= k <= Loops(F)
      && sig == Land(LoopAt(F, k), if again then 2 else 1)
      && CutTo(At(m0, r.st), LoopAt(F, k), m)
    case Ret(v) =>
      && ReturnAt(F).Some?
      && sig == Land(ReturnAt(F).value, Landing(2 * v))
      && CutTo(At(m0, r.st), ReturnAt(F).value, m)
    case Quit(v) => (
      match ExitAt(F)
      case None => sig == Halted(v)
      case Some(t) => sig == Land(t, Landing(2 * v + 1)) && ExitedTo(m0, t, m))
    case Leave(n, again) =>
      && n > 0 && Loops(F) == 0 && FileAt(F).Some?
      && sig == Land(FileAt(F).value, 1)
      && LeftFile(At(m0, r.st), FileAt(F).value, n, again, m)
    case Stuck => sig == Stalled
  }

  predicate ExitedTo(m0: Machine, t: nat, m: Machine)
    requires Sound(m0) && t < |m0.frames|
  {
    && m.frames == m0.frames[..t + 1]
    && |m.slots| == t + 1 && m.slots[..t] == m0.slots[..t]
    && m.slots[t] == m0.slots[t].(code := m.slots[t].code)
    && m.at == m0.frames[t].saved
    && |m.envs| == Envs(m.frames) <= |m0.envs|
    && Rest(m.envs) == m0.envs[..|m.envs| - 1]
  }

  /** The jump out of a sourced file leaves the unwinding to whoever lands. */
  predicate LeftFile(m0: Machine, t: nat, n: nat, again: bool, m: Machine)
    requires Sound(m0) && t < |m0.frames|
  {
    && |m.slots| == |m.frames| > t
    && m.frames[..t + 1] == m0.frames[..t + 1]
    && m.slots[..t] == m0.slots[..t]
    && m.slots[t].pending == n && m.slots[t].again == again
    && Under(m0.frames[t].saved, m.at)
    && m.envs == m0.envs
  }

  lemma Pushed(F: seq<Frame>, f: Frame)
    ensures Top(F + [f]) == f && Rest(F + [f]) == F
  {
  }

  lemma {:induction false} BelowCurrent(F: seq<Frame>)
    requires LoopsArePlain(F)
    ensures ExitAt(F).Some? ==> ExitAt(F).value <= Current(F)
    ensures FileAt(F).Some? ==> FileAt(F).value <= Current(F)
  {
    if F != [] && Top(F).loop && |F| > 1 {
      BelowCurrent(Rest(F));
    }
  }

  /** A saved position is an ancestor of the present one, so that unwinding to it ends. */
  lemma {:induction false} SavedIsUnder(F: seq<Frame>, at: Stacks, t: nat)
    requires Chain(F, at) && t < |F|
    ensures Under(F[t].saved, at) && Chain(F[..t + 1], F[t].saved) && Chain(F[..t], F[t].saved)
  {
    if t == |F| - 1 {
      assert F[..t + 1] == F && F[..t] == Rest(F);
    } else {
      SavedIsUnder(Rest(F), Top(F).saved, t);
      assert Rest(F)[..t + 1] == F[..t + 1] && Rest(F)[..t] == F[..t];
    }
  }

  /** Environments only grow with the frames. */
  lemma {:induction false} EnvsGrow(F: seq<Frame>, t: nat)
    requires t <= |F|
    ensures Envs(F[..t]) <= Envs(F)
  {
    if t == |F| {
      assert F[..t] == F;
    } else {
      EnvsGrow(Rest(F), t);
      assert Rest(F)[..t] == F[..t];
    }
  }

  lemma AtAt(m: Machine, a: State, b: State)
    requires Sound(m)
    ensures Sound(At(m, a)) && At(At(m, a), b) == At(m, b) && LastOf(At(m, a)) == (if m.frames == [] then 0 else a.last)
    ensures Top(At(m, a).envs) == a.dollar
  {
    assert WithDollar(WithDollar(m.envs, a.dollar), b.dollar) == WithDollar(m.envs, b.dollar);
  }

  /** What runs after other commands of the same list agrees from the list's start on. */
  lemma Rebase(m0: Machine, st: State, r: Result, sig: Signal, m: Machine)
    requires Sound(m0) && Sound(At(m0, st)) && Agrees(At(m0, st), r, sig, m)
    ensures Agrees(m0, r, sig, m)
  {
    AtAt(m0, st, r.st);
    BelowCurrent(m0.frames);
    var m1 := At(m0, st);
    if r.out.Quit? && ExitAt(m0.frames).Some? {
      var t := ExitAt(m0.frames).value;
      assert m1.slots[..t] == m0.slots[..t];
      assert m1.envs[..|m.envs| - 1] == m0.envs[..|m.envs| - 1];
    }
  }

  predicate PushedOn(m0: Machine, f: Frame, m1: Machine) {
    && m1.frames == m0.frames + [f]
    && |m1.slots| == |m0.slots| + 1 && m1.slots[..|m0.slots|] == m0.slots
    && m1.at == f.saved
  }

  /** Below the frame pushed nothing has changed. */
  lemma PushedBelow(m0: Machine, f: Frame, m1: Machine, t: nat)
    requires |m0.slots| == |m0.frames| && PushedOn(m0, f, m1) && t < |m0.frames|
    ensures m1.frames[t] == m0.frames[t]
    ensures m1.frames[..t] == m0.frames[..t] && m1.frames[..t + 1] == m0.frames[..t + 1]
    ensures m1.slots[..t] == m0.slots[..t] && m1.slots[..t + 1] == m0.slots[..t + 1]
  {
    assert m1.slots[..|m0.slots|][..t] == m1.slots[..t];
    assert m1.slots[..|m0.slots|][..t + 1] == m1.slots[..t + 1];
  }

  /** The searches look through a frame that is not what they look for. */
  lemma LooksThrough(F: seq<Frame>, f: Frame)
    ensures !Boundary(f) && !(f.jump && f.loop) ==> Loops(F + [f]) == Loops(F) && FileAt(F + [f]) == FileAt(F)
    ensures !Boundary(f) && f.jump && f.loop ==> Loops(F + [f]) == Loops(F) + 1 && FileAt(F + [f]) == FileAt(F)
    ensures Boundary(f) ==> Loops(F + [f]) == 0 && FileAt(F + [f]) == if f.source then Some(|F|) else None
    ensures ReturnAt(F + [f]) == if f.jump && (f.function_ || f.root) then Some(|F|) else ReturnAt(F)
    ensures ExitAt(F + [f]) == if f.jump && f.root then Some(|F|) else ExitAt(F)
    ensures Current(F + [f]) == if f.loop && F != [] then Current(F) else |F|
    ensures Envs(F + [f]) == Envs(F) + if f.function_ || (f.root && f.jump && !f.source) then 1 else 0
  {
    Pushed(F, f);
  }

  lemma LoopAtThrough(F: seq<Frame>, f: Frame, k: nat)
    requires !Boundary(f) && 1 <= k <= Loops(F + [f])
    ensures f.jump && f.loop && k == 1 ==> LoopAt(F + [f], k) == |F|
    ensures f.jump && f.loop && k > 1 ==> k - 1 <= Loops(F) && LoopAt(F + [f], k) == LoopAt(F, k - 1)
    ensures !(f.jump && f.loop) ==> k <= Loops(F) && LoopAt(F + [f], k) == LoopAt(F, k)
  {
    Pushed(F, f);
  }

  /** An exit that goes past the frame pushed agrees below it. */
  lemma ExitPast(m0: Machine, f: Frame, m1: Machine, r: Result, sig: Signal, m: Machine)
    requires Sound(m0) && Sound(m1) && Agrees(m1, r, sig, m) && r.out.Quit?
    requires PushedOn(m0, f, m1) && !(f.jump && f.root)
    requires |m1.envs| >= |m0.envs| && m1.envs[..|m0.envs| - 1] == Rest(m0.envs)
    ensures Agrees(m0, r, sig, m)
  {
    LooksThrough(m0.frames, f);
    if ExitAt(m0.frames).Some? {
      var t := ExitAt(m0.frames).value;
      PushedBelow(m0, f, m1, t);
      EnvsGrow(m0.frames, t + 1);
      assert m1.envs[..|m.envs| - 1] == m1.envs[..|m0.envs| - 1][..|m.envs| - 1];
    }
  }

  /** Through a loop's frame: one level less, or here. */
  lemma LoopLift(m0: Machine, f: Frame, m1: Machine, r: Result, sig: Signal, m: Machine)
    requires Sound(m0) && m0.frames != [] && Sound(m1) && Agrees(m1, r, sig, m)
    requires PushedOn(m0, f, m1) && f.saved == m0.at && m1.envs == m0.envs
    requires f.loop && f.jump && !f.root && !f.source && !f.function_
    ensures r.out.Stop? && r.out.levels > 1 ==>
              Agrees(m0, Result(Stop(r.out.levels - 1, r.out.again), r.st), sig, m)
    ensures r.out.Stop? && r.out.levels <= 1 ==>
              sig == Land(|m0.frames|, if r.out.again then 2 else 1) && m == At(m1, r.st)
    ensures !r.out.Done? && !r.out.Stop? ==> Agrees(m0, r, sig, m)
  {
    hide Loops, LoopAt, FileAt, ReturnAt, ExitAt, Envs, Chain;
    LooksThrough(m0.frames, f);
    if r.out.Stop? {
      LoopAtThrough(m0.frames, f, r.out.levels);
      var t := LoopAt(m1.frames, r.out.levels);
      if r.out.levels == 1 {
        assert At(m1, r.st).slots[..t + 1] == At(m1, r.st).slots;
        assert m1.frames[..t + 1] == m1.frames;
      } else {
        PushedBelow(m0, f, m1, t);
        AtPushed(m0, f, m1, r.st);
        PushedBelow(At(m0, r.st), f, At(m1, r.st), t);
      }
    } else if r.out.Ret? {
      var t := ReturnAt(m0.frames).value;
      PushedBelow(m0, f, m1, t);
      AtPushed(m0, f, m1, r.st);
      PushedBelow(At(m0, r.st), f, At(m1, r.st), t);
    } else if r.out.Quit? {
      ExitPast(m0, f, m1, r, sig, m);
    }
  }

  lemma AtPushed(m0: Machine, f: Frame, m1: Machine, st: State)
    requires Sound(m0) && m0.frames != [] && Sound(m1) && PushedOn(m0, f, m1) && f.loop
    ensures PushedOn(At(m0, st), f, At(m1, st))
  {
    LooksThrough(m0.frames, f);
    assert At(m1, st).slots[..|m0.slots|] == At(m0, st).slots;
  }

  /** Through the frame of eval or of a script's line: nothing is caught here. */
  lemma PassLift(m0: Machine, f: Frame, m1: Machine, r: Result, back: State, sig: Signal, m: Machine)
    requires Sound(m0) && Sound(m1) && Agrees(m1, r, sig, m) && !r.out.Done?
    requires PushedOn(m0, f, m1) && m1.envs == m0.envs
    requires !f.loop && !f.jump && !f.function_ && !f.source && (!Boundary(f) || m0.frames == [])
    requires back == r.st.(last := LastOf(m0))
    ensures Agrees(m0, Result(r.out, back), sig, m)
  {
    hide Loops, LoopAt, FileAt, ReturnAt, ExitAt, Envs, Chain;
    LooksThrough(m0.frames, f);
    if m0.frames == [] {
      NothingToSee();
      if r.out.Quit? {
        ExitPast(m0, f, m1, r, sig, m);
      }
    } else {
      assert At(m0, back).slots == m0.slots;
      if r.out.Stop? {
        LoopAtThrough(m0.frames, f, r.out.levels);
        PassCut(m0, f, m1, r.st, back, LoopAt(m0.frames, r.out.levels), m);
      } else if r.out.Ret? {
        PassCut(m0, f, m1, r.st, back, ReturnAt(m0.frames).value, m);
      } else if r.out.Leave? {
        PushedBelow(m0, f, m1, FileAt(m0.frames).value);
      } else if r.out.Quit? {
        ExitPast(m0, f, m1, r, sig, m);
      }
    }
  }

  lemma NothingToSee()
    ensures Loops([]) == 0 && FileAt([]).None? && ReturnAt([]).None? && ExitAt([]).None?
  {
  }

  lemma PassCut(m0: Machine, f: Frame, m1: Machine, st: State, back: State, t: nat, m: Machine)
    requires Sound(m0) && m0.frames != [] && Sound(m1) && PushedOn(m0, f, m1) && m1.envs == m0.envs && !f.loop
    requires back == st.(last := LastOf(m0)) && t < |m0.frames| && CutTo(At(m1, st), t, m)
    ensures CutTo(At(m0, back), t, m)
  {
    LooksThrough(m0.frames, f);
    PushedBelow(m0, f, m1, t);
    assert At(m0, back).slots == m0.slots;
    assert At(m1, st).slots[..t + 1] == m1.slots[..t + 1];
  }

  /** The machine stands at the frame f that was pushed on m0, whatever is left above it. */
  predicate Reached(m0: Machine, m1: Machine, m: Machine)
    requires m1.frames != []
  {
    var n := |m0.frames|;
    && |m.slots| == |m.frames| > n
    && m.frames[..n + 1] == m1.frames
    && m.slots[..n] == m0.slots
    && Under(Top(m1.frames).saved, m.at)
    && |m.envs| == |m1.envs| > 0
    && Rest(m.envs) == Rest(m1.envs)
  }

  /** At the frame of a call, a subshell or a sourced file: what each lets through and catches. */
  lemma BoundaryLift(m0: Machine, f: Frame, m1: Machine, r: Result, sig: Signal, m: Machine)
    requires Sound(m0) && Sound(m1) && Agrees(m1, r, sig, m) && !r.out.Done?
    requires PushedOn(m0, f, m1) && Boundary(f) && f.jump && !f.loop && (f.function_ || f.root)
    requires |m1.envs| >= |m0.envs| && m1.envs[..|m0.envs| - 1] == Rest(m0.envs)
    ensures !r.out.Stop?
    ensures r.out.Ret? ==> sig == Land(|m0.frames|, Landing(2 * r.out.value)) && Reached(m0, m1, m)
                           && m.slots[|m0.frames|].pending == Top(m1.slots).pending && Top(m.envs) == r.st.dollar
    ensures r.out.Leave? ==> f.source && sig == Land(|m0.frames|, 1) && Reached(m0, m1, m)
                             && m.slots[|m0.frames|].pending == r.out.levels > 0
                             && m.slots[|m0.frames|].again == r.out.again && Top(m.envs) == r.st.dollar
    ensures r.out.Quit? && f.root ==> sig == Land(|m0.frames|, Landing(2 * r.out.code + 1)) && Reached(m0, m1, m)
                                      && m.slots[|m0.frames|].pending == Top(m1.slots).pending
    ensures r.out.Quit? && !f.root ==> Agrees(m0, r, sig, m)
    ensures r.out.Stuck? ==> sig == Stalled
  {
    hide Loops, LoopAt, FileAt, ReturnAt, ExitAt, Envs, Chain;
    LooksThrough(m0.frames, f);
    var n := |m0.frames|;
    assert m1.frames[..n + 1] == m1.frames && m1.frames[n] == f;
    assert At(m1, r.st).slots[..n + 1] == At(m1, r.st).slots;
    assert At(m1, r.st).slots[..n] == m1.slots[..n];
    if r.out.Quit? && !f.root {
      ExitPast(m0, f, m1, r, sig, m);
    }
  }

  /** Searching F from the top has seen the frames from i on, found loops among them. */
  predicate Beneath(F: seq<Frame>, i: nat, found: nat) {
    && i <= |F|
    && Loops(F) == found + Loops(F[..i])
    && FileAt(F) == FileAt(F[..i])
    && forall k {:trigger LoopAt(F[..i], k)} | 1 <= k <= Loops(F[..i]) :: LoopAt(F, found + k) == LoopAt(F[..i], k)
  }

  lemma BeneathStart(F: seq<Frame>)
    ensures Beneath(F, |F|, 0)
  {
    assert F[..|F|] == F;
  }

  lemma BeneathStep(F: seq<Frame>, i: nat, found: nat)
    requires Beneath(F, i, found) && i > 0 && !Boundary(F[i - 1])
    ensures F[i - 1].jump && F[i - 1].loop ==>
              Loops(F) > found && LoopAt(F, found + 1) == i - 1 && Beneath(F, i - 1, found + 1)
    ensures !(F[i - 1].jump && F[i - 1].loop) ==> Beneath(F, i - 1, found)
  {
    var G := F[..i];
    assert Rest(G) == F[..i - 1] && Top(G) == F[i - 1];
    if F[i - 1].jump && F[i - 1].loop {
      assert LoopAt(F, found + 1) == LoopAt(G, 1) == i - 1;
      forall k {:trigger LoopAt(F[..i - 1], k)} | 1 <= k <= Loops(F[..i - 1])
        ensures LoopAt(F, found + 1 + k) == LoopAt(F[..i - 1], k)
      {
        assert LoopAt(F, found + (k + 1)) == LoopAt(G, k + 1);
      }
    } else {
      forall k {:trigger LoopAt(F[..i - 1], k)} | 1 <= k <= Loops(F[..i - 1])
        ensures LoopAt(F, found + k) == LoopAt(F[..i - 1], k)
      {
        assert LoopAt(F, found + k) == LoopAt(G, k);
      }
    }
  }

  lemma BeneathBoundary(F: seq<Frame>, i: nat, found: nat)
    requires Beneath(F, i, found) && (i > 0 ==> Boundary(F[i - 1]))
    ensures Loops(F) == found
    ensures FileAt(F) == if i > 0 && F[i - 1].source then Some(i - 1) else None
  {
    assert i > 0 ==> Top(F[..i]) == F[i - 1];
  }

  lemma AtNow(m: Machine, st: State)
    requires Sound(m) && st.last == LastOf(m) && st.dollar == Top(m.envs)
    ensures At(m, st) == m
  {
    assert WithLast(m.frames, m.slots, st.last) == m.slots;
    assert WithDollar(m.envs, st.dollar) == m.envs;
  }

  /** What setjmp returns at the frame an outcome ends at. */
  function JumpValue(out: Outcome): int {
    match out
    case Ret(v) => Landing(2 * v)
    case Quit(v) => Landing(2 * v + 1)
    case _ => 1
  }

  lemma DoneReached(m0: Machine, f: Frame, m1: Machine, st: State)
    requires Sound(m0) && Sound(m1) && PushedOn(m0, f, m1) && !f.loop
    ensures Reached(m0, m1, At(m1, st)) && At(m1, st).slots[|m0.frames|].code == st.last
    ensures At(m1, st).slots[|m0.frames|].pending == Top(m1.slots).pending
  {
    LooksThrough(m0.frames, f);
    assert m1.frames[..|m0.frames| + 1] == m1.frames;
    assert At(m1, st).slots[..|m0.frames|] == m0.slots;
  }
}
