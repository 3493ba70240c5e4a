/** The walk as a machine with an explicit stack of directories, one step at a time, and why its
    steps are the traversal. */
module WalkState {
  import opened Wrappers
  import opened Traversal

  datatype Next = Root | Descend | List | Done

  /** A directory being listed, with what is left of its list. */
  datatype Frame = Frame(item: Item, dir: Ino, kept: bool, rest: seq<Entry>)

  datatype State = State(next: Next, frames: seq<Frame>, cur: Item)

  function Stack(frames: seq<Frame>): (s: seq<Ino>)
    ensures |s| == |frames|
  {
    seq(|frames|, i requires 0 <= i < |frames| => frames[i].dir)
  }

  /** walk_keep: the innermost directory being listed. */
  function Mark(frames: seq<Frame>, kept: bool): (r: seq<Frame>)
    ensures |r| == |frames|
  {
    if kept && frames != [] then
      var top := frames[|frames| - 1];
      frames[..|frames| - 1] + [top.(kept := true)]
    else
      frames
  }

  /** visit: the phase of an entry, and whether the next step enters it. */
  function Begin(c: Config, s: State, it: Item): (Option<Visit>, State) {
    if !it.kind.Dir? then (Some(ItemVisit(it, File, NoError)), s.(next := List, cur := it))
    else if IsCycle(c, Stack(s.frames), it) then (Some(ItemVisit(it, Cycle, NoError)), s.(next := List, cur := it))
    else (Some(ItemVisit(it, Pre, NoError)), s.(next := Descend, cur := it))
  }

  predicate Finished(s: State) {
    s.next.Done? || (s.next.List? && s.frames == [])
  }

  /** One round of the loop of walk_read. */
  function Turn(c: Config, s: State): (Option<Visit>, State)
    requires !Finished(s)
  {
    var k := |s.frames|;
    match s.next
    case Done => (None, s)
    case Root =>
      (match RootItem(c)
       case None => (Some(Visit(Err, c.rootPath, 0, Unknown, false, false, StatFailed)), s.(next := List))
       case Some(it) => Begin(c, s, it))
    case Descend =>
      (match Enter(c, s.cur, k)
       case Failed(err) => (Some(ItemVisit(s.cur, Err, err)), s.(next := List))
       case Opened(d, list) => (None, s.(next := List, frames := s.frames + [Frame(s.cur, d, false, list)])))
    case List =>
      var top := s.frames[k - 1];
      if top.rest != [] then
        var it := Classify(c, top.item.path, k, top.rest[0]);
        Begin(c, s.(frames := s.frames[..k - 1] + [top.(rest := top.rest[1..])]), it)
      else
        (Some(PostVisit(top.item, top.kept)),
         s.(frames := Mark(s.frames[..k - 1], top.kept), cur := top.item))
  }

  /** The caller's answer to the nth reported visit. */
  function Answer(c: Config, n: nat, s: State): State {
    s.(frames := Mark(s.frames, Keep in c.calls(n)),
       next := if Skip in c.calls(n) && s.next.Descend? then List else s.next)
  }

  /** Every frame lists a directory below the ones under it, and no directory is on the stack twice. */
  ghost predicate Ok(c: Config, s: State) {
    && WellFormed(c)
    && FramesOk(c, s.frames)
    && (s.next.Descend? ==>
          && Below(c, Stack(s.frames), s.cur) && s.cur.kind.Dir? && !IsCycle(c, Stack(s.frames), s.cur))
    && (s.next.Root? ==> s.frames == [])
  }

  ghost predicate FramesOk(c: Config, frames: seq<Frame>) {
    && (forall k | 0 <= k < |frames| ::
          && frames[k].item.depth == k
          && AllListed(c, Stack(frames)[..k + 1], frames[k].rest)
          && frames[k].dir in c.dirs)
    && (forall j, k | 0 <= j < k < |frames| ::
          && frames[j].dir != frames[k].dir
          && (!c.flags.logical ==> c.height(frames[k].dir) < c.height(frames[j].dir)))
  }

  /** What the frames still have to give, the innermost first. */
  ghost function Unwind(c: Config, n: nat, frames: seq<Frame>): Out
    requires WellFormed(c) && FramesOk(c, frames)
    decreases |frames|
  {
    if frames == [] then Out([], n, false, 0)
    else
      var k := |frames| - 1;
      var top := frames[k];
      assert Stack(frames)[..k + 1] == Stack(frames);
      var body := Children(c, n, top.item.path, Stack(frames), top.rest);
      var kept := top.kept || body.kept;
      var post := Report(c, body.n, PostVisit(top.item, kept));
      PopOk(c, frames, kept || post.kept);
      Then(Then(body, post), Unwind(c, post.n, Mark(frames[..k], kept || post.kept)))
  }

  lemma MarkOk(c: Config, frames: seq<Frame>, kept: bool)
    requires FramesOk(c, frames)
    ensures FramesOk(c, Mark(frames, kept)) && Stack(Mark(frames, kept)) == Stack(frames)
  {
    var r := Mark(frames, kept);
    assert forall k | 0 <= k < |frames| :: r[k].dir == frames[k].dir && r[k].rest == frames[k].rest;
    assert Stack(r) == Stack(frames);
  }

  lemma PopOk(c: Config, frames: seq<Frame>, kept: bool)
    requires FramesOk(c, frames) && frames != []
    ensures FramesOk(c, Mark(frames[..|frames| - 1], kept))
    ensures FramesOk(c, frames[..|frames| - 1])
  {
    var r := frames[..|frames| - 1];
    forall k | 0 <= k < |r| ensures AllListed(c, Stack(r)[..k + 1], r[k].rest) {
      assert r[k] == frames[k] && Stack(r)[..k + 1] == Stack(frames)[..k + 1];
    }
    MarkOk(c, r, kept);
  }

  /** Some visits, and then what the frames still have to give. */
  ghost function Plug(c: Config, o: Out, frames: seq<Frame>): Out
    requires WellFormed(c) && FramesOk(c, frames)
  {
    MarkOk(c, frames, o.kept);
    Then(o, Unwind(c, o.n, Mark(frames, o.kept)))
  }

  /** All that a state still has to give. */
  ghost function Rest(c: Config, n: nat, s: State): Out
    requires Ok(c, s)
  {
    match s.next
    case Done => Out([], n, false, 0)
    case Root => Traverse(c, n)
    case Descend => Plug(c, VisitDir(c, n, Stack(s.frames), s.cur), s.frames)
    case List => Unwind(c, n, s.frames)
  }

  /** The same visits in the same number of steps. */
  ghost predicate Same(a: Out, b: Out) {
    a.visits == b.visits && a.turns == b.turns
  }

  /** One step, and for a reported visit the caller's answer to it: what is left is what was left,
      without the visit. */
  ghost predicate StepOk(c: Config, n: nat, before: Out, v: Option<Visit>, after: State) {
    && Ok(c, after)
    && if v.Some? && Reported(c.flags, v.value.phase) then
      var s := Answer(c, n, after);
      Ok(c, s) && Same(before, Then(Report(c, n, v.value), Rest(c, n + 1, s)))
    else
      Same(before, Rest(c, n, after).(turns := Rest(c, n, after).turns + 1))
  }

  lemma MarkTwice(frames: seq<Frame>, a: bool, b: bool)
    ensures Mark(Mark(frames, a), b) == Mark(frames, a || b)
  {
  }

  lemma PlugThen(c: Config, a: Out, b: Out, frames: seq<Frame>)
    requires WellFormed(c) && FramesOk(c, frames) && FramesOk(c, Mark(frames, a.kept))
    ensures Same(Plug(c, Then(a, b), frames), Then(a, Plug(c, b, Mark(frames, a.kept))))
  {
    hide FramesOk, WellFormed, Unwind;
    MarkTwice(frames, a.kept, b.kept);
  }

  /** A visit after which no directory is entered. */
  lemma LeafStep(c: Config, n: nat, s: State, v: Visit, s': State)
    requires WellFormed(c) && FramesOk(c, s.frames) && s' == s.(next := List, cur := s'.cur)
    ensures StepOk(c, n, Plug(c, Report(c, n, v), s.frames), Some(v), s')
  {
    hide FramesOk, WellFormed, Unwind;
    MarkOk(c, s.frames, Keep in c.calls(n));
  }

  /** An item starts, and the frames follow it. */
  lemma BeginStep(c: Config, n: nat, s: State, it: Item)
    requires WellFormed(c) && FramesOk(c, s.frames) && Below(c, Stack(s.frames), it)
    ensures StepOk(c, n, Plug(c, VisitItem(c, n, Stack(s.frames), it), s.frames),
                   Begin(c, s, it).0, Begin(c, s, it).1)
  {
    hide FramesOk, WellFormed, Unwind, Below, IsCycle, VisitDir, Children, Plug;
    var (v, s') := Begin(c, s, it);
    if !s'.next.Descend? {
      LeafStep(c, n, s, v.value, s');
    } else {
      var pre := Report(c, n, v.value);
      var o := VisitDir(c, pre.n, Stack(s.frames), it);
      MarkOk(c, s.frames, pre.kept);
      PlugThen(c, pre, o, s.frames);
      if c.flags.pre && Skip in c.calls(n) {
        LeafStep(c, n, s, v.value, s'.(next := List));
      }
    }
  }

  lemma PushOk(c: Config, s: State, d: Ino, list: seq<Entry>)
    requires Ok(c, s) && s.next.Descend? && Enter(c, s.cur, |s.frames|) == Opened(d, list)
    ensures FramesOk(c, s.frames + [Frame(s.cur, d, false, list)])
  {
    hide Enter, IsCycle;
    var f := s.frames + [Frame(s.cur, d, false, list)];
    EnterRoom(c, Stack(s.frames), s.cur);
    assert c.fs.kind(d).Dir? by { EnteredIsDir(c, s.cur, |s.frames|); }
    assert Stack(f) == Stack(s.frames) + [d];
    forall k | 0 <= k < |f| ensures AllListed(c, Stack(f)[..k + 1], f[k].rest) {
      if k < |s.frames| {
        assert Stack(f)[..k + 1] == Stack(s.frames)[..k + 1] && f[k] == s.frames[k];
      } else {
        assert Stack(f)[..k + 1] == Stack(f);
      }
    }
    forall j | 0 <= j < |s.frames|
      ensures f[j].dir != d && (!c.flags.logical ==> c.height(d) < c.height(f[j].dir))
    {
      assert Stack(s.frames)[j] == f[j].dir;
      assert s.frames[|s.frames| - 1].dir == Stack(s.frames)[|s.frames| - 1];
    }
  }

  lemma EnteredIsDir(c: Config, it: Item, depth: nat)
    ensures Enter(c, it, depth).Opened? ==> c.fs.kind(Enter(c, it, depth).dir).Dir?
  {
  }

  /** A directory is entered, or cannot be. */
  lemma DescendStep(c: Config, n: nat, s: State)
    requires Ok(c, s) && s.next.Descend?
    ensures StepOk(c, n, Rest(c, n, s), Turn(c, s).0, Turn(c, s).1)
  {
    hide Stat, Below, IsCycle, WellFormed, FramesOk, Enter, Children;
    var st := Stack(s.frames);
    EnterRoom(c, st, s.cur);
    var (v, s') := Turn(c, s);
    match Enter(c, s.cur, |s.frames|)
    case Failed(err) =>
      LeafStep(c, n, s, v.value, s'.(cur := s.cur));
    case Opened(d, list) =>
      PushOk(c, s, d, list);
      assert Stack(s'.frames) == st + [d];
      assert s'.frames[..|s.frames|] == s.frames;
  }

  ghost function Advanced(frames: seq<Frame>): (f: seq<Frame>)
    requires frames != [] && frames[|frames| - 1].rest != []
  {
    var top := frames[|frames| - 1];
    frames[..|frames| - 1] + [top.(rest := top.rest[1..])]
  }

  lemma AdvanceOk(c: Config, frames: seq<Frame>)
    requires FramesOk(c, frames) && frames != [] && frames[|frames| - 1].rest != []
    ensures FramesOk(c, Advanced(frames)) && Stack(Advanced(frames)) == Stack(frames)
    ensures Listed(c, Stack(frames)[|frames| - 1], frames[|frames| - 1].rest[0])
  {
    var f := Advanced(frames);
    assert Stack(f) == Stack(frames);
    forall k | 0 <= k < |f| ensures AllListed(c, Stack(f)[..k + 1], f[k].rest) {
      assert AllListed(c, Stack(frames)[..k + 1], frames[k].rest);
    }
    assert AllListed(c, Stack(frames)[..|frames|], frames[|frames| - 1].rest);
  }

  /** Unwind, one frame. */
  lemma UnwindTop(c: Config, n: nat, frames: seq<Frame>, body: Out)
    requires WellFormed(c) && FramesOk(c, frames) && frames != [] && AllListed(c, Stack(frames), frames[|frames| - 1].rest)
    requires var top := frames[|frames| - 1]; body == Children(c, n, top.item.path, Stack(frames), top.rest)
    ensures var top := frames[|frames| - 1];
            var post := Report(c, body.n, PostVisit(top.item, top.kept || body.kept));
            var f := Mark(frames[..|frames| - 1], top.kept || body.kept || post.kept);
            FramesOk(c, f) && Unwind(c, n, frames) == Then(Then(body, post), Unwind(c, post.n, f))
  {
    hide WellFormed, FramesOk, AllListed, Children, Mark, Report, Then;
    var top := frames[|frames| - 1];
    var post := Report(c, body.n, PostVisit(top.item, top.kept || body.kept));
    assert Stack(frames)[..|frames|] == Stack(frames);
    PopOk(c, frames, top.kept || body.kept || post.kept);
  }

  lemma AdvancedMarked(frames: seq<Frame>, kept: bool)
    requires frames != [] && frames[|frames| - 1].rest != []
    ensures var k := |frames| - 1;
            var g := Mark(Advanced(frames), kept);
            g[..k] == frames[..k] && g[k] == Frame(frames[k].item, frames[k].dir, frames[k].kept || kept, frames[k].rest[1..])
  {
  }

  lemma UnwindChild(c: Config, n: nat, frames: seq<Frame>, it: Item)
    requires WellFormed(c) && FramesOk(c, frames) && frames != [] && frames[|frames| - 1].rest != []
    requires FramesOk(c, Advanced(frames)) && Stack(Advanced(frames)) == Stack(frames)
    requires var top := frames[|frames| - 1]; it == Classify(c, top.item.path, |frames|, top.rest[0])
    requires Below(c, Stack(frames), it)
    ensures Same(Unwind(c, n, frames), Plug(c, VisitItem(c, n, Stack(frames), it), Advanced(frames)))
  {
    hide FramesOk, WellFormed, Below, VisitItem, Classify, AllListed, Listed, Unwind, Stack, Report, PostVisit;
    var k := |frames| - 1;
    var top := frames[k];
    var f := Advanced(frames);
    var st := Stack(frames);
    TopListed(c, frames);
    TopListed(c, f);
    var first := VisitItem(c, n, st, it);
    var more := Children(c, first.n, top.item.path, st, top.rest[1..]);
    assert Children(c, n, top.item.path, st, top.rest) == Then(first, more);
    var g := Mark(f, first.kept);
    MarkOk(c, f, first.kept);
    AdvancedMarked(frames, first.kept);
    hide Mark, Advanced, Children, Then, PostVisit, Plug, Same;
    var kept := top.kept || first.kept || more.kept;
    assert Then(first, more).n == more.n && (top.kept || Then(first, more).kept) == kept by { ThenEnd(first, more); }
    var post := Report(c, more.n, PostVisit(top.item, kept));
    UnwindTop(c, n, frames, Then(first, more));
    UnwindTop(c, first.n, g, more);
    var rest := Unwind(c, post.n, Mark(frames[..k], kept || post.kept));
    assert Unwind(c, n, frames) == Then(Then(Then(first, more), post), rest);
    assert Unwind(c, first.n, g) == Then(Then(more, post), rest);
    ThenAssoc(first, more, post, rest);
    Plugged(c, first, f);
  }

  lemma ThenEnd(a: Out, b: Out)
    ensures Then(a, b).n == b.n && Then(a, b).kept == (a.kept || b.kept)
  {
  }

  lemma ThenAssoc(a: Out, b: Out, p: Out, u: Out)
    ensures Same(Then(Then(Then(a, b), p), u), Then(a, Then(Then(b, p), u)))
  {
  }

  lemma Plugged(c: Config, o: Out, frames: seq<Frame>)
    requires WellFormed(c) && FramesOk(c, frames) && FramesOk(c, Mark(frames, o.kept))
    ensures Plug(c, o, frames) == Then(o, Unwind(c, o.n, Mark(frames, o.kept)))
  {
    hide FramesOk, WellFormed, Unwind, Then, Mark;
  }

  lemma TopListed(c: Config, frames: seq<Frame>)
    requires FramesOk(c, frames) && frames != []
    ensures AllListed(c, Stack(frames), frames[|frames| - 1].rest)
  {
    assert Stack(frames)[..|frames|] == Stack(frames);
    assert AllListed(c, Stack(frames)[..|frames|], frames[|frames| - 1].rest);
  }

  /** The next entry of the innermost directory. */
  lemma ChildStep(c: Config, n: nat, s: State)
    requires Ok(c, s) && s.next.List? && s.frames != [] && s.frames[|s.frames| - 1].rest != []
    ensures StepOk(c, n, Rest(c, n, s), Turn(c, s).0, Turn(c, s).1)
  {
    hide WellFormed, FramesOk, Below, VisitItem, Classify, Unwind, Plug, Begin, Listed;
    var top := s.frames[|s.frames| - 1];
    AdvanceOk(c, s.frames);
    var it := Classify(c, top.item.path, |s.frames|, top.rest[0]);
    ChildBelow(c, Stack(s.frames), top.item.path, top.rest[0]);
    BeginStep(c, n, s.(frames := Advanced(s.frames)), it);
    UnwindChild(c, n, s.frames, it);
  }

  lemma UnwindPop(c: Config, n: nat, frames: seq<Frame>)
    requires WellFormed(c) && FramesOk(c, frames) && frames != [] && frames[|frames| - 1].rest == []
    ensures var top := frames[|frames| - 1];
            var post := Report(c, n, PostVisit(top.item, top.kept));
            var f := Mark(frames[..|frames| - 1], top.kept || post.kept);
            FramesOk(c, f) && Same(Unwind(c, n, frames), Then(post, Unwind(c, post.n, f)))
  {
    hide FramesOk, WellFormed, Unwind, Stack;
    TopListed(c, frames);
    UnwindTop(c, n, frames, Out([], n, false, 0));
  }

  /** The innermost directory is listed completely. */
  lemma PopStep(c: Config, n: nat, s: State)
    requires Ok(c, s) && s.next.List? && s.frames != [] && s.frames[|s.frames| - 1].rest == []
    ensures StepOk(c, n, Rest(c, n, s), Turn(c, s).0, Turn(c, s).1)
  {
    hide WellFormed, FramesOk, Unwind;
    var k := |s.frames| - 1;
    var top := s.frames[k];
    var keep := c.flags.post && Keep in c.calls(n);
    UnwindPop(c, n, s.frames);
    PopOk(c, s.frames, top.kept);
    MarkTwice(s.frames[..k], top.kept, keep);
    MarkOk(c, Mark(s.frames[..k], top.kept), keep);
  }

  lemma PlugNone(c: Config, o: Out)
    requires WellFormed(c) && FramesOk(c, [])
    ensures Same(Plug(c, o, []), o)
  {
    hide WellFormed, FramesOk;
  }

  /** The first step looks at the root. */
  lemma RootStep(c: Config, n: nat, s: State)
    requires Ok(c, s) && s.next.Root?
    ensures StepOk(c, n, Rest(c, n, s), Turn(c, s).0, Turn(c, s).1)
  {
    hide WellFormed, FramesOk, Unwind, VisitItem, Stat, Begin, Below;
    assert Stack(s.frames) == [];
    match RootItem(c)
    case None =>
      var v := Turn(c, s).0.value;
      LeafStep(c, n, s, v, Turn(c, s).1);
      PlugNone(c, Report(c, n, v));
    case Some(it) =>
      RootBelow(c);
      BeginStep(c, n, s, it);
      PlugNone(c, VisitItem(c, n, [], it));
  }

  /** Every step gives the next visit of the traversal, or none. */
  lemma Step(c: Config, n: nat, s: State)
    requires Ok(c, s) && !Finished(s)
    ensures StepOk(c, n, Rest(c, n, s), Turn(c, s).0, Turn(c, s).1)
  {
    hide StepOk, Rest, Turn, WellFormed, FramesOk;
    match s.next
    case Root => RootStep(c, n, s);
    case Descend => DescendStep(c, n, s);
    case List =>
      if s.frames[|s.frames| - 1].rest == [] {
        PopStep(c, n, s);
      } else {
        ChildStep(c, n, s);
      }
  }

  /** Every step keeps the stack in order. */
  lemma TurnOk(c: Config, s: State)
    requires Ok(c, s) && !Finished(s)
    ensures Ok(c, Turn(c, s).1)
    ensures s.next.Descend? ==> s.cur.kind.Dir? && s.cur.depth == |s.frames|
  {
    Step(c, 0, s);
  }

  lemma OkIsWellFormed(c: Config, s: State)
    requires Ok(c, s)
    ensures WellFormed(c)
  {
  }

  lemma TurnDescend(c: Config, s: State)
    requires s.next.Descend?
    ensures Turn(c, s) == match Enter(c, s.cur, |s.frames|)
                          case Failed(err) => (Some(ItemVisit(s.cur, Err, err)), s.(next := List))
                          case Opened(d, list) => (None, s.(next := List, frames := s.frames + [Frame(s.cur, d, false, list)]))
  {
  }

  /** The state in which the next entry of the innermost directory begins. */
  lemma ChildOk(c: Config, s: State)
    requires Ok(c, s) && s.next.List? && s.frames != [] && s.frames[|s.frames| - 1].rest != []
    ensures var top := s.frames[|s.frames| - 1];
            var it := Classify(c, top.item.path, |s.frames|, top.rest[0]);
            && WellFormed(c)
            && Turn(c, s) == Begin(c, s.(frames := Advanced(s.frames)), it)
            && Below(c, Stack(Advanced(s.frames)), it)
            && Ok(c, State(List, Advanced(s.frames), it))
            && Begin(c, State(List, Advanced(s.frames), it), it) == Begin(c, s.(frames := Advanced(s.frames)), it)
  {
    hide WellFormed, FramesOk, Below, Classify, Listed;
    AdvanceOk(c, s.frames);
    var top := s.frames[|s.frames| - 1];
    ChildBelow(c, Stack(s.frames), top.item.path, top.rest[0]);
  }

  lemma TurnPop(c: Config, s: State)
    requires s.next.List? && s.frames != [] && s.frames[|s.frames| - 1].rest == []
    ensures var k := |s.frames| - 1;
            var top := s.frames[k];
            Turn(c, s) == (Some(PostVisit(top.item, top.kept)), s.(frames := Mark(s.frames[..k], top.kept), cur := top.item))
  {
  }

  /** The nth reported visit is v, and once the caller has answered the state gives the rest. */
  ghost predicate Gives(c: Config, n: nat, before: State, v: Visit, after: State) {
    && Ok(c, before) && Reported(c.flags, v.phase) && Ok(c, Answer(c, n, after))
    && Rest(c, n, before).visits == [v] + Rest(c, n + 1, Answer(c, n, after)).visits
    && Rest(c, n, before).turns > Rest(c, n + 1, Answer(c, n, after)).turns
  }

  lemma GivesStep(c: Config, n: nat, first: State, before: State, v: Visit, after: State)
    requires Ok(c, first) && Ok(c, before) && Reported(c.flags, v.phase)
    requires Rest(c, n, before).visits == Rest(c, n, first).visits && Rest(c, n, before).turns <= Rest(c, n, first).turns
    requires StepOk(c, n, Rest(c, n, before), Some(v), after)
    ensures Gives(c, n, first, v, after)
  {
    hide Rest, Ok;
  }
}
