/** The tree walker: walk_read and the calls its user may make between two visits, on the fields of
    struct walk. Directory lists live in an arena that is rewound in stack order. */
module Walker {
  import opened Wrappers
  import opened Traversal
  import S = WalkState

  type Lists = seq<seq<Entry>>

  /** struct walk_frame: the list is a block of the arena (None: not to be walked), at is the next
      record, pos the arena before the list was read, and plen the directory's part of the path. */
  datatype Frame = Frame(block: Option<nat>, at: nat, pos: nat, plen: nat, dir: Ino, islink: bool, kept: bool, node: Ino)

  /** The arena position right after the frame's list. */
  function After(f: Frame): nat {
    f.pos + (if f.block.Some? then 1 else 0)
  }

  predicate InUse(f: Frame, path: string, lists: Lists) {
    && f.plen <= |path|
    && (f.block.Some? ==> f.block.value == f.pos < |lists| && f.at <= |lists[f.pos]|)
  }

  /** The frames' lists are the blocks of the arena in stack order, with nothing between them, up to
      position top. */
  ghost predicate Chained(frames: seq<Frame>, path: string, lists: Lists, top: nat) {
    && (forall k | 0 <= k < |frames| :: InUse(frames[k], path, lists))
    && (forall k | 0 < k < |frames| :: frames[k].pos == After(frames[k - 1]) && frames[k - 1].plen <= frames[k].plen)
    && (if frames == [] then top == 0 else frames[0].pos == 0 && top == After(frames[|frames| - 1]))
    && top <= |lists|
  }

  function AbsFrame(f: Frame, k: nat, path: string, lists: Lists): S.Frame
    requires InUse(f, path, lists)
  {
    S.Frame(Item(path[..f.plen], k, Dir, f.islink, f.node), f.dir, f.kept,
            if f.block.Some? then lists[f.pos][f.at..] else [])
  }

  function AbsFrames(frames: seq<Frame>, path: string, lists: Lists): seq<S.Frame>
    requires forall k | 0 <= k < |frames| :: InUse(frames[k], path, lists)
  {
    seq(|frames|, k requires 0 <= k < |frames| => AbsFrame(frames[k], k, path, lists))
  }

  /** Positions only go up along the stack. */
  lemma {:induction false} PosOrder(frames: seq<Frame>, path: string, lists: Lists, top: nat, k: nat)
    requires Chained(frames, path, lists, top) && k < |frames|
    ensures After(frames[k]) <= top && frames[k].plen <= frames[|frames| - 1].plen
    decreases |frames| - k
  {
    if k + 1 < |frames| {
      PosOrder(frames, path, lists, top, k + 1);
    }
  }

  /** Lists of outer frames survive whatever happens to the arena above top, and their paths whatever
      is put after the innermost directory's path. */
  lemma Untouched(frames: seq<Frame>, path: string, lists: Lists, top: nat, path': string, lists': Lists)
    requires Chained(frames, path, lists, top)
    requires top <= |lists'| && lists[..top] == lists'[..top]
    requires frames != [] ==> var n := frames[|frames| - 1].plen; n <= |path'| && path[..n] == path'[..n]
    ensures Chained(frames, path', lists', top)
    ensures AbsFrames(frames, path', lists') == AbsFrames(frames, path, lists)
  {
    forall k | 0 <= k < |frames|
      ensures InUse(frames[k], path', lists') && AbsFrame(frames[k], k, path', lists') == AbsFrame(frames[k], k, path, lists)
    {
      PosOrder(frames, path, lists, top, k);
      var f, n := frames[k], frames[|frames| - 1].plen;
      assert path[..f.plen] == path[..n][..f.plen] && path'[..f.plen] == path'[..n][..f.plen];
      if f.block.Some? {
        assert lists[f.pos] == lists[..top][f.pos] && lists'[f.pos] == lists'[..top][f.pos];
      }
    }
  }

  lemma PushChained(frames: seq<Frame>, path: string, lists: Lists, top: nat, f: Frame)
    requires Chained(frames, path, lists, top) && InUse(f, path, lists) && f.pos == top && After(f) <= |lists|
    requires frames != [] ==> frames[|frames| - 1].plen <= f.plen
    ensures Chained(frames + [f], path, lists, After(f))
    ensures AbsFrames(frames + [f], path, lists) == AbsFrames(frames, path, lists) + [AbsFrame(f, |frames|, path, lists)]
  {
  }

  lemma PopChained(frames: seq<Frame>, path: string, lists: Lists, top: nat)
    requires Chained(frames, path, lists, top) && frames != []
    ensures var n := |frames| - 1;
            && Chained(frames[..n], path, lists, frames[n].pos)
            && AbsFrames(frames[..n], path, lists) == AbsFrames(frames, path, lists)[..n]
  {
  }

  /** The top frame changes in its mark or its next record only. */
  lemma TopChanged(frames: seq<Frame>, path: string, lists: Lists, top: nat, f: Frame)
    requires Chained(frames, path, lists, top) && frames != []
    requires var g := frames[|frames| - 1]; f == g.(kept := f.kept, at := f.at) && InUse(f, path, lists)
    ensures var n := |frames| - 1;
            var r := frames[..n] + [f];
            && Chained(r, path, lists, top)
            && AbsFrames(r, path, lists) == AbsFrames(frames, path, lists)[..n] + [AbsFrame(f, n, path, lists)]
  {
  }

  lemma TopKept(frames: seq<Frame>, path: string, lists: Lists, top: nat)
    requires Chained(frames, path, lists, top) && frames != []
    ensures var n := |frames| - 1;
            var r := frames[..n] + [frames[n].(kept := true)];
            Chained(r, path, lists, top) && AbsFrames(r, path, lists) == S.Mark(AbsFrames(frames, path, lists), true)
  {
    var n := |frames| - 1;
    TopChanged(frames, path, lists, top, frames[n].(kept := true));
    assert AbsFrames(frames, path, lists)[n] == AbsFrame(frames[n], n, path, lists);
  }

  lemma NoFrames(path: string, lists: Lists)
    ensures AbsFrames([], path, lists) == []
  {
  }

  lemma TopAdvanced(frames: seq<Frame>, path: string, lists: Lists, top: nat)
    requires Chained(frames, path, lists, top) && frames != []
    requires AbsFrames(frames, path, lists)[|frames| - 1].rest != []
    ensures var n := |frames| - 1;
            var f := frames[n];
            var r := frames[..n] + [f.(at := f.at + 1)];
            && f.pos < |lists| && f.at < |lists[f.pos]| && f.plen <= |path|
            && lists[f.pos][f.at] == AbsFrames(frames, path, lists)[n].rest[0]
            && path[..f.plen] == AbsFrames(frames, path, lists)[n].item.path
            && Chained(r, path, lists, top) && AbsFrames(r, path, lists) == S.Advanced(AbsFrames(frames, path, lists))
  {
    var n := |frames| - 1;
    TopChanged(frames, path, lists, top, frames[n].(at := frames[n].at + 1));
    assert AbsFrames(frames, path, lists)[n] == AbsFrame(frames[n], n, path, lists);
  }

  class Walk {
    const c: Config
    var next: S.Next
    var frames: seq<Frame>
    var path: string
    // the current entry; node is what lstat() of the path finds
    var depth: nat
    var kind: Kind
    var islink: bool
    var node: Ino
    var st: Option<Ino> // hasst and st
    var rootdev: nat
    // the arena of directory lists, and whether the block at kpos is the list walk_kids() has read
    var lists: Lists
    var kids: bool
    var kpos: nat

    ghost function Top(): nat
      reads this
    {
      if kids then kpos else |lists|
    }

    ghost function Abs(): S.State
      requires Chained(frames, path, lists, Top())
      reads this
    {
      S.State(next, AbsFrames(frames, path, lists), Item(path, depth, kind, islink, node))
    }

    ghost predicate Valid()
      reads this
    {
      && Chained(frames, path, lists, Top())
      && S.Ok(c, Abs())
      && (kind.Dir? && st.Some? ==> st == Stat(c, node, depth))
      && (if next.Root? then Item(path, depth, kind, islink, node) == Item(c.rootPath, 0, Unknown, false, RootIno(c))
                             && rootdev == 0 && !kids
          else rootdev == RootDev(c))
      && (next.Done? ==> frames == [])
      && (kids ==> |lists| == kpos + 1 && kind.Dir? && c.fs.target(node).Some?
                   && c.fs.entries(c.fs.target(node).value) == Some(lists[kpos]))
    }

    /** walk_open. */
    constructor (config: Config)
      requires WellFormed(config)
      ensures c == config && Valid()
      ensures Abs().next.Root? && Abs().frames == []
    {
      c := config;
      next, frames, path := S.Root, [], config.rootPath;
      depth, kind, islink, node, st := 0, Unknown, false, RootIno(config), None;
      rootdev, lists, kids, kpos := 0, [], false, 0;
    }

    /** walk_skip. */
    method Skip()
      requires Valid()
      modifies this`next
      ensures Valid()
      ensures Abs() == old(Abs()).(next := if old(next).Descend? then S.List else old(next))
    {
      if next.Descend? {
        next := S.List;
      }
    }

    /** f[nf - 1].kept = 1. */
    method MarkTop()
      requires Chained(frames, path, lists, Top())
      modifies this`frames
      ensures Chained(frames, path, lists, Top()) && |frames| == old(|frames|)
      ensures AbsFrames(frames, path, lists) == S.Mark(old(AbsFrames(frames, path, lists)), true)
    {
      hide Chained, AbsFrames;
      if frames != [] {
        var k := |frames| - 1;
        TopKept(frames, path, lists, Top());
        frames := frames[..k] + [frames[k].(kept := true)];
      } else {
        NoFrames(path, lists);
      }
    }

    /** walk_keep. */
    method Keep()
      requires Valid()
      modifies this`frames
      ensures Valid()
      ensures Abs() == old(Abs()).(frames := S.Mark(old(Abs()).frames, true))
    {
      hide Chained, AbsFrames;
      S.MarkOk(c, Abs().frames, true);
      MarkTop();
    }

    /** walk_stat. */
    method WalkStat() returns (r: Option<Ino>)
      requires Valid()
      modifies this`st
      ensures Valid() && Abs() == old(Abs())
      ensures kind.Dir? ==> r == Stat(c, node, depth)
    {
      hide S.Ok, Chained, AbsFrames, RootDev;
      if st.None? {
        if c.flags.logical || (c.flags.comfollow && depth == 0) {
          st := c.fs.target(node);
        } else {
          st := if c.fs.lstat(node) then Some(node) else None;
        }
      }
      return st;
    }

    /** walk_kids; None with ENOTDIR or because the directory cannot be read. */
    method Kids() returns (r: Option<seq<Entry>>)
      requires Valid()
      modifies this`lists, this`kids, this`kpos
      ensures Valid() && Abs() == old(Abs())
      ensures kind.Dir? ==> r == match c.fs.target(node) case None => None case Some(d) => c.fs.entries(d)
      ensures !kind.Dir? ==> r == None
    {
      hide S.Ok, WellFormed, AbsFrames;
      if !kind.Dir? {
        return None;
      }
      if !kids {
        var found := c.fs.target(node);
        if found.None? || c.fs.entries(found.value).None? {
          return None;
        }
        ghost var was := lists;
        kpos := |lists|;
        lists := lists + [c.fs.entries(found.value).value];
        kids := true;
        Untouched(frames, path, was, |was|, path, lists);
      }
      return Some(lists[kpos]);
    }

    /** cycle: the directory about to be entered is one of those being listed. */
    method SeesCycle() returns (b: bool)
      requires Valid() && kind.Dir? && c.flags.logical
      modifies this`st
      ensures Valid() && Abs() == old(Abs())
      ensures b == IsCycle(c, S.Stack(Abs().frames), Abs().cur)
    {
      hide S.Ok, WellFormed;
      var found := WalkStat();
      b := false;
      if found.Some? {
        ghost var stack := S.Stack(Abs().frames);
        var i := 0;
        while i < |frames| && !b
          modifies {}
          invariant 0 <= i <= |frames|
          invariant b <==> found.value in stack[..i]
        {
          assert stack[..i + 1] == stack[..i] + [frames[i].dir];
          b := frames[i].dir == found.value;
          i := i + 1;
        }
      }
    }

    /** visit: the phase of the entry just classified. */
    method Begin() returns (v: Visit)
      requires Valid() && next.List? && !kids
      requires Below(c, S.Stack(Abs().frames), Abs().cur)
      modifies this`next, this`st
      ensures Valid()
      ensures (Some(v), Abs()) == S.Begin(c, old(Abs()), old(Abs()).cur)
    {
      hide WellFormed;
      if !kind.Dir? {
        return Visit(File, path, depth, kind, islink, false, NoError);
      }
      if c.flags.logical {
        var cycle := SeesCycle();
        if cycle {
          return Visit(Cycle, path, depth, kind, islink, false, NoError);
        }
      }
      next := S.Descend;
      return Visit(Pre, path, depth, kind, islink, false, NoError);
    }

    /** The root without the separators behind it, unless links are followed. */
    method RootLength(follow: bool) returns (n: nat)
      ensures n <= |path| && path[..n] == if follow then path else Cut(path)
    {
      n := |path|;
      assert path[..n] == path;
      while !follow && n > 1 && path[n - 1] == '/'
        invariant n <= |path| && Cut(path[..n]) == Cut(path) && (follow ==> n == |path|)
        decreases n
      {
        assert path[..n][..n - 1] == path[..n - 1];
        n := n - 1;
      }
    }

    /** root. */
    method RootTurn() returns (v: Visit)
      requires Valid() && next.Root?
      modifies this`next, this`st, this`rootdev, this`kind, this`islink
      ensures Valid()
      ensures (Some(v), Abs()) == S.Turn(c, old(Abs()))
    {
      hide WellFormed, Cut;
      S.TurnOk(c, Abs());
      next := S.List;
      var follow := c.flags.logical || c.flags.comfollow;
      var n := RootLength(follow);
      var root := c.names(path[..n]);
      var r := if follow then c.fs.target(root) else if c.fs.lstat(root) then Some(root) else None;
      if r.None? {
        return Visit(Err, path, depth, kind, islink, false, StatFailed);
      }
      st, rootdev, kind := r, r.value.dev, c.fs.kind(r.value);
      islink := follow && c.fs.lstat(root) && c.fs.kind(root).Lnk?;
      RootBelow(c);
      v := Begin();
    }

    /** Gives back the list walk_kids() read, if any. */
    method DropKids()
      requires Valid()
      modifies this`kids, this`lists
      ensures Valid() && !kids && Abs() == old(Abs())
    {
      hide S.Ok, WellFormed;
      if kids {
        ghost var was := lists;
        lists := lists[..kpos];
        kids := false;
        Untouched(frames, path, was, kpos, path, lists);
      }
    }

    /** The part of descend that gets the list of the directory d, reusing the one walk_kids() read. */
    method Level(d: Ino, stop: bool) returns (f: Option<Frame>)
      requires Valid() && WellFormed(c) && kind.Dir? && Stat(c, node, depth) == Some(d) && c.fs.kind(d).Dir?
      modifies this`lists, this`kids
      ensures f.None? <==> !stop && c.fs.entries(d).None?
      ensures f.None? ==> lists == old(lists) && kids == old(kids)
      ensures f.Some? ==>
                && !kids && f.value == Frame(f.value.block, 0, f.value.pos, |path|, d, islink, false, node)
                && Chained(frames, path, lists, f.value.pos) && After(f.value) == |lists|
                && InUse(f.value, path, lists)
                && AbsFrames(frames, path, lists) == old(Abs()).frames
                && AbsFrame(f.value, |frames|, path, lists).rest == if stop then [] else c.fs.entries(d).value
    {
      hide S.Ok;
      SameTarget(c, node, depth, d);
      var g := Frame(None, 0, |lists|, |path|, d, islink, false, node);
      if stop {
        if kids {
          g := g.(pos := kpos);
          DropKids();
        }
      } else if kids {
        g := g.(pos := kpos, block := Some(kpos));
        kids := false;
      } else {
        var list := c.fs.entries(d);
        if list.None? {
          return None;
        }
        g := g.(block := Some(|lists|));
        ghost var was := lists;
        lists := lists + [list.value];
        Untouched(frames, path, was, |was|, path, lists);
      }
      return Some(g);
    }

    /** descend: no visit unless the directory cannot be entered. */
    method DescendTurn() returns (v: Option<Visit>)
      requires Valid() && next.Descend?
      modifies this
      ensures Valid()
      ensures (v, Abs()) == S.Turn(c, old(Abs()))
    {
      hide S.Ok, Chained, InUse, IsCycle, Stat, S.Turn, AbsFrames, WellFormed;
      ghost var s := Abs();
      S.TurnOk(c, s);
      S.TurnDescend(c, s);
      S.OkIsWellFormed(c, s);
      assert |s.frames| == |frames| by { AbsLength(frames, path, lists, Top()); }
      var found := WalkStat();
      var err, f := NoError, None;
      if found.None? {
        err := StatFailed;
      } else if !c.fs.kind(found.value).Dir? {
        err := NotADirectory;
      } else {
        var stop := (c.maxdepth >= 0 && |frames| >= c.maxdepth) || (c.flags.xdev && found.value.dev != rootdev);
        f := Level(found.value, stop);
        if f.None? {
          err := ReadFailed;
        }
      }
      next := S.List;
      if f.None? {
        return Some(Visit(Err, path, depth, kind, islink, false, err));
      }
      PushFrame(f.value);
      return None;
    }

    /** f[nf++]. */
    method PushFrame(f: Frame)
      requires !kids && Chained(frames, path, lists, f.pos) && After(f) == |lists| && InUse(f, path, lists) && f.plen == |path|
      modifies this`frames
      ensures Chained(frames, path, lists, Top())
      ensures AbsFrames(frames, path, lists)
              == old(AbsFrames(frames, path, lists))
                 + [S.Frame(Item(path, old(|frames|), Dir, f.islink, f.node), f.dir, f.kept,
                            old(AbsFrame(f, |frames|, path, lists).rest))]
    {
      TopPath(frames, path, lists, f.pos);
      PushChained(frames, path, lists, f.pos, f);
      assert path[..|path|] == path;
      frames := frames + [f];
    }

    /** classify: the kind of the entry e, whose path is set already. */
    method ClassifyEntry(e: Entry, ghost dir: string)
      requires WellFormed(c) && path == JoinName(dir, e.name) && depth > 0
      modifies this`st, this`kind, this`islink, this`node
      ensures Item(path, depth, kind, islink, node) == Classify(c, dir, depth, e)
      ensures kind.Dir? && st.Some? ==> st == Stat(c, node, depth)
    {
      st, node := None, e.ino;
      var t := e.kind;
      islink := t.Lnk?;
      if t.Unknown? {
        if c.fs.lstat(e.ino) {
          st, t := Some(e.ino), c.fs.kind(e.ino);
          islink := t.Lnk?;
        } else {
          t := Other;
        }
      }
      if t.Lnk? && c.flags.logical {
        if c.fs.target(e.ino).Some? {
          st, t := c.fs.target(e.ino), c.fs.kind(c.fs.target(e.ino).value);
        } else if c.fs.lstat(e.ino) {
          st := Some(e.ino);
        }
      }
      kind := t;
    }

    /** The first half of child: takes the next record of the innermost directory and sets the path. */
    method TakeRecord() returns (e: Entry)
      requires Chained(frames, path, lists, Top()) && frames != []
      requires var top := Abs().frames[|frames| - 1]; top.rest != []
      modifies this`frames, this`path, this`depth
      ensures Chained(frames, path, lists, Top())
      ensures AbsFrames(frames, path, lists) == S.Advanced(old(Abs()).frames)
      ensures var top := old(Abs()).frames[|frames| - 1];
              e == top.rest[0] && path == JoinName(top.item.path, e.name)
      ensures |frames| == old(|frames|) && depth == |frames|
    {
      hide JoinName, Chained, AbsFrames, S.Advanced;
      var k := |frames| - 1;
      var f := frames[k];
      TopAdvanced(frames, path, lists, Top());
      e := lists[f.pos][f.at];
      ghost var was := path;
      frames := frames[..k] + [f.(at := f.at + 1)];
      JoinPrefix(path[..f.plen], e.name);
      path := JoinName(path[..f.plen], e.name);
      Untouched(frames, was, lists, Top(), path, lists);
      depth := |frames|;
    }

    /** child: the next record of the innermost directory. */
    method ChildTurn() returns (v: Visit)
      requires Valid() && next.List? && !kids && frames != []
      requires Abs().frames[|frames| - 1].rest != []
      modifies this
      ensures Valid()
      ensures (Some(v), Abs()) == S.Turn(c, old(Abs()))
    {
      hide S.Ok, WellFormed, Classify, Stat, Below, Listed, S.Begin, S.FramesOk, Chained, AbsFrames, S.Advanced, S.Turn,
           JoinName, S.Stack;
      ghost var s := Abs();
      AbsLength(frames, path, lists, Top());
      S.ChildOk(c, s);
      var e := TakeRecord();
      ClassifyEntry(e, s.frames[|s.frames| - 1].item.path);
      v := Begin();
    }

    /** The part of pop that removes the frame and gives its list back. */
    method PopFrame() returns (f: Frame)
      requires Chained(frames, path, lists, Top()) && frames != [] && !kids
      modifies this`frames, this`path, this`lists
      ensures |frames| == old(|frames|) - 1 && f == old(frames)[|frames|]
      ensures Chained(frames, path, lists, Top())
      ensures AbsFrames(frames, path, lists) == old(Abs()).frames[..|frames|]
      ensures path == old(Abs()).frames[|frames|].item.path
    {
      ghost var was, all := path, lists;
      f := frames[|frames| - 1];
      PopChained(frames, path, lists, Top());
      frames := frames[..|frames| - 1];
      lists := lists[..f.pos];
      path := path[..f.plen];
      Untouched(frames, was, all, f.pos, path, lists);
    }

    /** pop: the innermost directory is listed completely. */
    method PopTurn() returns (v: Visit)
      requires Valid() && next.List? && !kids && frames != []
      requires Abs().frames[|frames| - 1].rest == []
      modifies this
      ensures Valid()
      ensures (Some(v), Abs()) == S.Turn(c, old(Abs()))
    {
      hide S.Ok, WellFormed, S.FramesOk, Chained, S.Turn, AbsFrames, Stat;
      ghost var s := Abs();
      AbsLength(frames, path, lists, Top());
      S.TurnOk(c, s);
      S.TurnPop(c, s);
      PoppedFrame(frames, path, lists, Top());
      var f := PopFrame();
      var k := |frames|;
      st, depth, kind, islink, node := None, k, Dir, f.islink, f.node;
      if f.kept {
        MarkTop();
      }
      return Visit(Post, path, depth, Dir, islink, f.kept, NoError);
    }

    /** walk_read, as the nth reported visit: the next visit of the traversal. When there is none
        left, every list has been given back. */
    method Read(ghost n: nat) returns (r: Option<Visit>)
      requires Valid()
      modifies this
      ensures Valid()
      ensures r.None? ==> S.Rest(c, n, old(Abs())).visits == [] && next.Done? && lists == []
      ensures r.Some? ==> S.Gives(c, n, old(Abs()), r.value, Abs())
    {
      hide S.Ok, S.Rest, S.Turn, WellFormed, Chained, AbsFrames, Report, S.Answer, Stat, RootDev, S.Gives;
      ghost var left := Abs();
      while true
        invariant Valid()
        invariant S.Rest(c, n, Abs()).visits == S.Rest(c, n, left).visits
        invariant S.Rest(c, n, Abs()).turns <= S.Rest(c, n, left).turns
        decreases S.Rest(c, n, Abs()).turns
      {
        if kids && !next.Descend? {
          DropKids();
        }
        AbsLength(frames, path, lists, Top());
        if next.Done? || (next.List? && frames == []) {
          NothingLeft(c, n, Abs());
          ArenaEmpty(frames, path, lists, Top());
          next := S.Done;
          return None;
        }
        ghost var s := Abs();
        S.Step(c, n, s);
        r := Turn();
        if r.Some? && Reported(c.flags, r.value.phase) {
          S.GivesStep(c, n, left, s, r.value, Abs());
          return;
        }
      }
    }

    /** f[nf - 1].cur < f[nf - 1].end. */
    predicate HasRecord()
      requires Chained(frames, path, lists, Top()) && frames != []
      reads this
      ensures HasRecord() <==> Abs().frames[|frames| - 1].rest != []
    {
      var f := frames[|frames| - 1];
      f.block.Some? && f.at < |lists[f.pos]|
    }

    /** One round of the loop of walk_read. */
    method Turn() returns (v: Option<Visit>)
      requires Valid() && !S.Finished(Abs()) && (kids ==> next.Descend?)
      modifies this
      ensures Valid()
      ensures (v, Abs()) == S.Turn(c, old(Abs()))
    {
      hide S.Ok, S.Turn, WellFormed, Chained, AbsFrames, Stat, RootDev;
      AbsLength(frames, path, lists, Top());
      if next.Root? {
        var w := RootTurn();
        return Some(w);
      } else if next.Descend? {
        v := DescendTurn();
      } else if HasRecord() {
        var w := ChildTurn();
        return Some(w);
      } else {
        var w := PopTurn();
        return Some(w);
      }
    }
  }

  lemma JoinPrefix(dir: string, name: string)
    ensures var p := JoinName(dir, name); |dir| <= |p| && p[..|dir|] == dir
  {
  }

  lemma PoppedFrame(frames: seq<Frame>, path: string, lists: Lists, top: nat)
    requires Chained(frames, path, lists, top) && frames != []
    ensures var n := |frames| - 1;
            var f := frames[n];
            && f.plen <= |path|
            && AbsFrames(frames, path, lists)[n].item == Item(path[..f.plen], n, Dir, f.islink, f.node)
            && AbsFrames(frames, path, lists)[n].kept == f.kept
  {
  }

  lemma NothingLeft(c: Config, n: nat, s: S.State)
    requires S.Ok(c, s) && S.Finished(s)
    ensures S.Rest(c, n, s).visits == [] && S.Ok(c, s.(next := S.Done))
  {
  }

  lemma ArenaEmpty(frames: seq<Frame>, path: string, lists: Lists, top: nat)
    requires Chained(frames, path, lists, top) && top == |lists|
    ensures frames == [] ==> lists == []
  {
  }

  lemma AbsLength(frames: seq<Frame>, path: string, lists: Lists, top: nat)
    requires Chained(frames, path, lists, top)
    ensures |AbsFrames(frames, path, lists)| == |frames|
  {
  }

  lemma SameTarget(c: Config, node: Ino, depth: nat, d: Ino)
    requires WellFormed(c) && Stat(c, node, depth) == Some(d) && c.fs.kind(d).Dir?
    ensures c.fs.target(node) == Some(d)
  {
  }

  lemma TopPath(frames: seq<Frame>, path: string, lists: Lists, top: nat)
    requires Chained(frames, path, lists, top)
    ensures frames != [] ==> frames[|frames| - 1].plen <= |path|
  {
  }

  /** A caller's whole walk: reads until there is nothing left, making its calls after each visit. */
  method Run(c: Config) returns (vs: seq<Visit>)
    requires WellFormed(c)
    ensures vs == Traverse(c, 0).visits
  {
    hide S.Gives, WellFormed, Chained, S.Rest, Traverse, S.Ok, S.Answer, AbsFrames, Stat, RootDev;
    var w := new Walk(c);
    vs := [];
    Started(c, w.Abs());
    while true
      invariant fresh(w) && w.c == c && w.Valid()
      invariant vs + S.Rest(c, |vs|, w.Abs()).visits == Traverse(c, 0).visits
      decreases S.Rest(c, |vs|, w.Abs()).turns
    {
      ghost var before := w.Abs();
      var r := w.Read(|vs|);
      if r.None? {
        return;
      }
      ghost var after := w.Abs();
      Calls(w, |vs|);
      Given(c, |vs|, before, r.value, after);
      vs := vs + [r.value];
    }
  }

  lemma Started(c: Config, s: S.State)
    requires S.Ok(c, s) && s.next.Root?
    ensures S.Rest(c, 0, s) == Traverse(c, 0)
  {
  }

  lemma Given(c: Config, n: nat, before: S.State, v: Visit, after: S.State)
    requires S.Gives(c, n, before, v, after)
    ensures S.Ok(c, before) && S.Ok(c, S.Answer(c, n, after))
    ensures S.Rest(c, n, before).visits == [v] + S.Rest(c, n + 1, S.Answer(c, n, after)).visits
    ensures S.Rest(c, n, before).turns > S.Rest(c, n + 1, S.Answer(c, n, after)).turns
  {
  }

  /** The calls after the nth visit, in the caller's order. */
  method Calls(w: Walk, n: nat)
    requires w.Valid()
    modifies w
    ensures w.Valid()
    ensures w.Abs() == S.Answer(w.c, n, old(w.Abs()))
  {
    hide S.Ok, Chained, WellFormed;
    var calls := w.c.calls(n);
    ghost var s := w.Abs();
    var i := 0;
    while i < |calls|
      invariant 0 <= i <= |calls| && w.Valid()
      invariant w.Abs() == Answered(s, calls[..i])
    {
      assert calls[..i + 1] == calls[..i] + [calls[i]];
      match calls[i] {
        case Keep => w.Keep();
        case Skip => w.Skip();
        case Kids => var _ := w.Kids();
      }
      i := i + 1;
    }
    assert calls[..i] == calls;
  }

  ghost function Answered(s: S.State, calls: seq<Call>): S.State {
    s.(frames := S.Mark(s.frames, Keep in calls),
       next := if Skip in calls && s.next.Descend? then S.List else s.next)
  }
}
