/** What a walk over a file system visits, as a recursive traversal. */
module Traversal {
  import opened Wrappers

  datatype Ino = Ino(dev: nat, num: nat)
  datatype Kind = Unknown | Reg | Dir | Lnk | Other
  datatype Entry = Entry(name: string, kind: Kind, ino: Ino)

  /** A file system that does not change: the kind of each inode, whether lstat() works on it, what
      stat() of a path to it finds, and what a directory lists (None: it cannot be read). */
  datatype Fs = Fs(kind: Ino -> Kind, lstat: Ino -> bool, target: Ino -> Option<Ino>,
                   entries: Ino -> Option<seq<Entry>>)

  /** Which visits are asked for, and the policy. */
  datatype Flags = Flags(pre: bool, post: bool, err: bool, cycle: bool, logical: bool, comfollow: bool, xdev: bool)

  /** What the caller calls about a visit before it reads the next one. */
  datatype Call = Keep | Skip | Kids

  /** The walk: the root as the caller wrote it, the inode a path names (what a link leads to, if a
      separator is behind it), and the caller's calls after each visit in order. dirs, height and top bound the directories, for termination. */
  datatype Config = Config(fs: Fs, flags: Flags, maxdepth: int, rootPath: string, names: string -> Ino, calls: nat -> seq<Call>,
                           dirs: set<Ino>, height: Ino -> nat, top: nat)

  datatype Phase = File | Pre | Post | Err | Cycle
  datatype Errno = NoError | StatFailed | NotADirectory | ReadFailed

  datatype Visit = Visit(phase: Phase, path: string, depth: nat, kind: Kind, islink: bool, kept: bool, err: Errno)

  /** An entry as classified: kind is the target's when a link is followed. */
  datatype Item = Item(path: string, depth: nat, kind: Kind, islink: bool, ino: Ino)

  /** The visits, the number reported when they are over, whether one of them was kept, and the steps
      they take: one for each, unreported ones included, and one for each directory entered. */
  datatype Out = Out(visits: seq<Visit>, n: nat, kept: bool, turns: nat)

  predicate Reported(f: Flags, p: Phase) {
    match p
    case File => true
    case Pre => f.pre
    case Post => f.post
    case Err => f.err
    case Cycle => f.cycle
  }

  function JoinName(dir: string, name: string): string {
    dir + (if dir != "" && dir[|dir| - 1] != '/' then "/" else "") + name
  }

  predicate Follow(c: Config, depth: nat) {
    c.flags.logical || (c.flags.comfollow && depth == 0)
  }

  /** stat() or lstat(), as the policy says. */
  function Stat(c: Config, ino: Ino, depth: nat): Option<Ino> {
    if Follow(c, depth) then c.fs.target(ino)
    else if c.fs.lstat(ino) then Some(ino) else None
  }

  function Classify(c: Config, dir: string, depth: nat, e: Entry): Item {
    var known := if e.kind != Unknown then e.kind else if c.fs.lstat(e.ino) then c.fs.kind(e.ino) else Other;
    var kind := if known.Lnk? && c.flags.logical && c.fs.target(e.ino).Some?
                then c.fs.kind(c.fs.target(e.ino).value) else known;
    Item(JoinName(dir, e.name), depth, kind, known.Lnk?, e.ino)
  }

  /** Without the separators at its end. */
  function Cut(path: string): string {
    if |path| > 1 && path[|path| - 1] == '/' then Cut(path[..|path| - 1]) else path
  }

  /** What the root names. A separator behind a link would follow it: unless links are followed the
      separators are cut off. */
  function RootIno(c: Config): Ino {
    c.names(if Follow(c, 0) then c.rootPath else Cut(c.rootPath))
  }

  /** The root: None if it cannot be examined. */
  function RootItem(c: Config): Option<Item> {
    match Stat(c, RootIno(c), 0)
    case None => None
    case Some(i) =>
      var followed := Follow(c, 0);
      Some(Item(c.rootPath, 0, c.fs.kind(i), followed && c.fs.lstat(RootIno(c)) && c.fs.kind(RootIno(c)).Lnk?, RootIno(c)))
  }

  function RootDev(c: Config): nat {
    match Stat(c, RootIno(c), 0)
    case Some(i) => i.dev
    case None => 0
  }

  /** Entering the directory an item names: the directory and its list, which is empty where the
      walk must not go deeper. */
  datatype Entered = Failed(err: Errno) | Opened(dir: Ino, list: seq<Entry>)

  function Enter(c: Config, it: Item, depth: nat): Entered {
    match Stat(c, it.ino, it.depth)
    case None => Failed(StatFailed)
    case Some(d) =>
      if !c.fs.kind(d).Dir? then Failed(NotADirectory)
      else if (c.maxdepth >= 0 && depth >= c.maxdepth) || (c.flags.xdev && d.dev != RootDev(c)) then Opened(d, [])
      else match c.fs.entries(d)
        case None => Failed(ReadFailed)
        case Some(l) => Opened(d, l)
  }

  /** The directory is one of those being listed. */
  predicate IsCycle(c: Config, stack: seq<Ino>, it: Item) {
    c.flags.logical && Stat(c, it.ino, it.depth).Some? && Stat(c, it.ino, it.depth).value in stack
  }

  /** stat and lstat agree where there is no link, links lead to something that is not a link, lists
      tell the truth, there are finitely many directories, and without WALK_LOGICAL they form a
      tree. */
  ghost predicate WellFormed(c: Config) {
    && (forall i :: !c.fs.kind(i).Lnk? ==> c.fs.target(i) == if c.fs.lstat(i) then Some(i) else None)
    && (forall i :: c.fs.target(i).Some? ==> !c.fs.kind(c.fs.target(i).value).Lnk?)
    && (forall i :: c.fs.kind(i) != Unknown)
    && (forall i :: c.fs.kind(i).Dir? ==> i in c.dirs && c.height(i) < c.top)
    && (forall d, e | c.fs.entries(d).Some? && e in c.fs.entries(d).value :: Listed(c, d, e))
  }

  ghost predicate Listed(c: Config, d: Ino, e: Entry) {
    && (e.kind != Unknown ==> e.kind == c.fs.kind(e.ino))
    && (!c.flags.logical && c.fs.kind(e.ino).Dir? ==> c.height(e.ino) < c.height(d))
  }

  /** How many more directories can be entered below the stack. */
  ghost function Room(c: Config, stack: seq<Ino>): nat {
    if c.flags.logical then |c.dirs - (set i | i in stack)|
    else if stack == [] then c.top
    else c.height(stack[|stack| - 1])
  }

  /** The item can come up below the stack. */
  ghost predicate Below(c: Config, stack: seq<Ino>, it: Item) {
    && it.depth == |stack|
    && (it.kind.Dir? ==>
          match Stat(c, it.ino, it.depth)
          case None => true
          case Some(d) => c.fs.kind(d).Dir? && (!c.flags.logical ==> c.height(d) < Room(c, stack)))
  }

  ghost predicate AllListed(c: Config, stack: seq<Ino>, list: seq<Entry>) {
    stack != [] && forall k | 0 <= k < |list| :: Listed(c, stack[|stack| - 1], list[k])
  }

  lemma ChildBelow(c: Config, stack: seq<Ino>, dir: string, e: Entry)
    requires WellFormed(c) && stack != [] && Listed(c, stack[|stack| - 1], e)
    ensures Below(c, stack, Classify(c, dir, |stack|, e))
  {
  }

  lemma EnterRoom(c: Config, stack: seq<Ino>, it: Item)
    requires WellFormed(c) && Below(c, stack, it) && it.kind.Dir? && !IsCycle(c, stack, it)
    ensures match Enter(c, it, |stack|)
            case Failed(_) => true
            case Opened(d, list) =>
              && Stat(c, it.ino, it.depth) == Some(d)
              && Room(c, stack + [d]) < Room(c, stack) && AllListed(c, stack + [d], list)
              && (c.flags.logical ==> d !in stack)
  {
    match Enter(c, it, |stack|)
    case Failed(_) =>
    case Opened(d, list) =>
      if c.flags.logical {
        OneMore(c.dirs, stack, d);
      }
  }

  lemma OneMore(dirs: set<Ino>, stack: seq<Ino>, d: Ino)
    requires d in dirs && d !in stack
    ensures |dirs - (set i | i in stack + [d])| < |dirs - (set i | i in stack)|
  {
    var a, b := (set i | i in stack), (set i | i in stack + [d]);
    assert b == a + {d} && d in dirs - a;
    assert dirs - b == (dirs - a) - {d};
  }

  function Report(c: Config, n: nat, v: Visit): Out {
    if Reported(c.flags, v.phase) then Out([v], n + 1, Keep in c.calls(n), 1) else Out([], n, false, 1)
  }

  function Then(a: Out, b: Out): Out {
    Out(a.visits + b.visits, b.n, a.kept || b.kept, a.turns + b.turns)
  }

  function ItemVisit(it: Item, phase: Phase, err: Errno): Visit {
    Visit(phase, it.path, it.depth, it.kind, it.islink, false, err)
  }

  function PostVisit(it: Item, kept: bool): Visit {
    Visit(Post, it.path, it.depth, Dir, it.islink, kept, NoError)
  }

  /** An item: a file, a cycle, or a directory with everything below it. */
  ghost function VisitItem(c: Config, n: nat, stack: seq<Ino>, it: Item): Out
    requires WellFormed(c) && Below(c, stack, it)
    decreases Room(c, stack), 0
  {
    if !it.kind.Dir? then Report(c, n, ItemVisit(it, File, NoError))
    else if IsCycle(c, stack, it) then Report(c, n, ItemVisit(it, Cycle, NoError))
    else
      var pre := Report(c, n, ItemVisit(it, Pre, NoError));
      if c.flags.pre && Skip in c.calls(n) then pre else Then(pre, VisitDir(c, pre.n, stack, it))
  }

  /** A directory that is entered: what is in it, then its Post visit; or the error. */
  ghost function VisitDir(c: Config, n: nat, stack: seq<Ino>, it: Item): Out
    requires WellFormed(c) && Below(c, stack, it) && it.kind.Dir? && !IsCycle(c, stack, it)
    decreases Room(c, stack), 0, 0
  {
    match Enter(c, it, |stack|)
    case Failed(err) => Report(c, n, ItemVisit(it, Err, err))
    case Opened(d, list) =>
      EnterRoom(c, stack, it);
      var body := Children(c, n, it.path, stack + [d], list);
      var all := Then(body, Report(c, body.n, PostVisit(it, body.kept)));
      all.(turns := all.turns + 1)
  }

  ghost function Children(c: Config, n: nat, dir: string, stack: seq<Ino>, list: seq<Entry>): Out
    requires WellFormed(c) && AllListed(c, stack, list)
    decreases Room(c, stack), |list| + 1
  {
    if list == [] then Out([], n, false, 0)
    else
      ChildBelow(c, stack, dir, list[0]);
      var first := VisitItem(c, n, stack, Classify(c, dir, |stack|, list[0]));
      Then(first, Children(c, first.n, dir, stack, list[1..]))
  }

  lemma RootBelow(c: Config)
    requires WellFormed(c) && RootItem(c).Some?
    ensures Below(c, [], RootItem(c).value)
  {
  }

  /** The whole walk. */
  ghost function Traverse(c: Config, n: nat): Out
    requires WellFormed(c)
  {
    match RootItem(c)
    case None => Report(c, n, Visit(Err, c.rootPath, 0, Unknown, false, false, StatFailed))
    case Some(it) =>
      RootBelow(c);
      VisitItem(c, n, [], it)
  }
}
