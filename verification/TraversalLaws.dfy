/** What can be read off the list of visits alone. */
module TraversalLaws {
  import opened Wrappers
  import opened Traversal
  import S = WalkState

  /** The visits j..i are all below the directory that visit i is about. */
  ghost predicate Deeper(vs: seq<Visit>, j: nat, i: nat)
    requires i < |vs|
  {
    forall t | j <= t < i :: vs[t].depth > vs[i].depth
  }

  predicate KeptAt(c: Config, t: nat) {
    Keep in c.calls(t)
  }

  /** A Post visit is marked kept if and only if walk_keep was called on a visit below the directory. */
  ghost predicate KeptRight(c: Config, n: nat, vs: seq<Visit>, i: nat)
    requires i < |vs|
  {
    vs[i].kept <==> exists t :: n <= t < n + i && Deeper(vs, t - n, i) && KeptAt(c, t)
  }

  /** A Pre visit that is not skipped is closed by the Post or Err visit of the same directory, with
      only deeper visits between; after a skipped one nothing deeper comes. */
  ghost predicate Closed(c: Config, n: nat, vs: seq<Visit>, i: nat)
    requires i < |vs|
  {
    if Skip in c.calls(n + i) then
      i + 1 < |vs| ==> vs[i + 1].depth <= vs[i].depth
    else
      exists j :: i < j < |vs| && Closes(vs, i, j)
  }

  ghost predicate Closes(vs: seq<Visit>, i: nat, j: nat)
    requires i < j < |vs|
  {
    && (vs[j].phase.Post? || vs[j].phase.Err?) && vs[j].path == vs[i].path && vs[j].depth == vs[i].depth
    && forall t | i < t < j :: vs[t].depth > vs[i].depth
  }

  /** The visits are about entries at depth d or below. */
  ghost predicate Shape(c: Config, n: nat, o: Out, d: nat) {
    && o.n == n + |o.visits|
    && (o.kept <==> exists t :: n <= t < n + |o.visits| && KeptAt(c, t))
    && (forall i | 0 <= i < |o.visits| ::
          o.visits[i].depth >= d && (o.visits[i].phase.Post? ==> c.flags.post) && (o.visits[i].phase.Pre? ==> c.flags.pre))
  }

  ghost predicate Stops(c: Config, o: Out, d: nat) {
    o.visits != [] && c.flags.post ==> o.visits[|o.visits| - 1].depth == d
  }

  ghost predicate Starts(c: Config, o: Out, d: nat) {
    o.visits != [] && c.flags.pre ==> o.visits[0].depth == d
  }

  ghost predicate AllKeptRight(c: Config, n: nat, vs: seq<Visit>) {
    forall i | 0 <= i < |vs| && vs[i].phase.Post? :: KeptRight(c, n, vs, i)
  }

  ghost predicate AllClosed(c: Config, n: nat, vs: seq<Visit>) {
    forall i | 0 <= i < |vs| && vs[i].phase.Pre? :: Closed(c, n, vs, i)
  }

  ghost predicate Laws(c: Config, n: nat, o: Out, d: nat) {
    && Shape(c, n, o, d) && Stops(c, o, d)
    && AllKeptRight(c, n, o.visits)
    && (c.flags.post && c.flags.err ==> AllClosed(c, n, o.visits))
  }

  /** Two pieces at the same depth, one after the other. */
  lemma ThenLaws(c: Config, n: nat, a: Out, b: Out, d: nat)
    requires Laws(c, n, a, d) && Laws(c, a.n, b, d) && Starts(c, a, d) && Starts(c, b, d)
    ensures Laws(c, n, Then(a, b), d) && Starts(c, Then(a, b), d)
  {
    ThenShape(c, n, a, b, d);
    ThenKept(c, n, a, b, d);
    if c.flags.post && c.flags.err {
      ThenClosed(c, n, a, b, d);
    }
  }

  lemma ThenShape(c: Config, n: nat, a: Out, b: Out, d: nat)
    requires Shape(c, n, a, d) && Shape(c, a.n, b, d)
    ensures Shape(c, n, Then(a, b), d)
  {
  }

  lemma ThenKept(c: Config, n: nat, a: Out, b: Out, d: nat)
    requires Shape(c, n, a, d) && Shape(c, a.n, b, d) && Stops(c, a, d)
    requires AllKeptRight(c, n, a.visits) && AllKeptRight(c, a.n, b.visits)
    ensures AllKeptRight(c, n, Then(a, b).visits)
  {
    hide KeptRight;
    FrontKept(c, n, a.visits, b.visits);
    BackKept(c, n, a.n, a.visits, b.visits, d);
    BothKept(c, n, a.visits, b.visits);
  }

  lemma BothKept(c: Config, n: nat, a: seq<Visit>, b: seq<Visit>)
    requires forall i | 0 <= i < |a| && a[i].phase.Post? :: KeptRight(c, n, a + b, i)
    requires forall i | 0 <= i < |b| && b[i].phase.Post? :: KeptRight(c, n, a + b, |a| + i)
    ensures AllKeptRight(c, n, a + b)
  {
    hide KeptRight;
    forall i | 0 <= i < |a + b| && (a + b)[i].phase.Post? ensures KeptRight(c, n, a + b, i) {
      if i < |a| {
        assert a[i] == (a + b)[i];
      } else {
        assert b[i - |a|] == (a + b)[i];
      }
    }
  }

  lemma FrontKept(c: Config, n: nat, a: seq<Visit>, b: seq<Visit>)
    requires AllKeptRight(c, n, a)
    ensures forall i | 0 <= i < |a| && a[i].phase.Post? :: KeptRight(c, n, a + b, i)
  {
    hide KeptRight;
    forall i | 0 <= i < |a| && a[i].phase.Post? ensures KeptRight(c, n, a + b, i) {
      assert (a + b)[0..|a|] == a;
      SameKept(c, n, a, n, a + b, 0, i);
    }
  }

  lemma BackKept(c: Config, n: nat, n1: nat, a: seq<Visit>, b: seq<Visit>, d: nat)
    requires AllKeptRight(c, n1, b) && n1 == n + |a|
    requires forall i | 0 <= i < |b| && b[i].phase.Post? :: b[i].depth >= d && (a != [] ==> a[|a| - 1].depth == d)
    ensures forall i | 0 <= i < |b| && b[i].phase.Post? :: KeptRight(c, n, a + b, |a| + i)
  {
    hide KeptRight;
    forall i | 0 <= i < |b| && b[i].phase.Post? ensures KeptRight(c, n, a + b, |a| + i) {
      assert (a + b)[|a|..|a| + |b|] == b;
      SameKept(c, n1, b, n, a + b, |a|, i);
    }
  }

  lemma ThenClosed(c: Config, n: nat, a: Out, b: Out, d: nat)
    requires Shape(c, n, a, d) && Shape(c, a.n, b, d) && Starts(c, b, d)
    requires AllClosed(c, n, a.visits) && AllClosed(c, a.n, b.visits)
    ensures AllClosed(c, n, Then(a, b).visits)
  {
    hide Closed;
    var all, m := a.visits + b.visits, |a.visits|;
    forall i | 0 <= i < |all| && all[i].phase.Pre? ensures Closed(c, n, all, i) {
      if i < m {
        assert all[0..m] == a.visits;
        SameClosed(c, n, a.visits, n, all, 0, i);
      } else {
        assert all[m..] == b.visits && b.visits[i - m] == all[i];
        SameClosed(c, a.n, b.visits, n, all, m, i - m);
      }
    }
  }

  /** Visit i of part is visit m + i of all; what comes before part is not deeper than visit i. */
  lemma SameKept(c: Config, n: nat, part: seq<Visit>, n0: nat, all: seq<Visit>, m: nat, i: nat)
    requires i < |part| && m + |part| <= |all| && all[m..m + |part|] == part && n == n0 + m
    requires m > 0 ==> all[m - 1].depth <= part[i].depth
    requires KeptRight(c, n, part, i)
    ensures KeptRight(c, n0, all, m + i)
  {
    assert forall t | 0 <= t < |part| :: part[t] == all[m..m + |part|][t] == all[m + t];
    if part[i].kept {
      var t :| n <= t < n + i && Deeper(part, t - n, i) && KeptAt(c, t);
      forall u | t - n0 <= u < m + i ensures all[u].depth > all[m + i].depth {
        assert part[u - m] == all[u];
      }
      assert Deeper(all, t - n0, m + i);
    }
    if t :| n0 <= t < n0 + m + i && Deeper(all, t - n0, m + i) && KeptAt(c, t) {
      assert t >= n;
      forall u | t - n <= u < i ensures part[u].depth > part[i].depth {
        assert part[u] == all[m + u];
      }
      assert Deeper(part, t - n, i);
    }
  }

  lemma SameClosed(c: Config, n: nat, part: seq<Visit>, n0: nat, all: seq<Visit>, m: nat, i: nat)
    requires i < |part| && m + |part| <= |all| && all[m..m + |part|] == part && n == n0 + m
    requires i + 1 == |part| && m + i + 1 < |all| ==> all[m + i + 1].depth <= part[i].depth
    requires Closed(c, n, part, i)
    ensures Closed(c, n0, all, m + i)
  {
    assert forall t | 0 <= t < |part| :: part[t] == all[m..m + |part|][t] == all[m + t];
    if Skip !in c.calls(n + i) {
      var j :| i < j < |part| && Closes(part, i, j);
      forall t | m + i < t < m + j ensures all[t].depth > all[m + i].depth {
        assert part[t - m] == all[t];
      }
      assert Closes(all, m + i, m + j);
    }
  }

  lemma ReportShape(c: Config, n: nat, v: Visit)
    ensures Shape(c, n, Report(c, n, v), v.depth) && Stops(c, Report(c, n, v), v.depth)
    ensures Starts(c, Report(c, n, v), v.depth)
  {
    assert KeptAt(c, n) <==> Keep in c.calls(n);
  }

  lemma ReportLaws(c: Config, n: nat, v: Visit)
    requires v.phase.Pre? ==> Skip in c.calls(n)
    requires !v.phase.Post?
    ensures Laws(c, n, Report(c, n, v), v.depth) && Starts(c, Report(c, n, v), v.depth)
  {
    ReportShape(c, n, v);
  }

  /** What an entered directory ends with. */
  ghost predicate Ends(o: Out, path: string, d: nat) {
    && o.visits != []
    && var last := o.visits[|o.visits| - 1];
       && (last.phase.Post? || last.phase.Err?) && last.path == path && last.depth == d
       && forall t | 0 <= t < |o.visits| - 1 :: o.visits[t].depth > d
  }

  /** The visits below a directory, and its Post visit. */
  lemma PostLaws(c: Config, n: nat, body: Out, it: Item, turns: nat)
    requires Laws(c, n, body, it.depth + 1)
    ensures var o := Then(body, Report(c, body.n, PostVisit(it, body.kept))).(turns := turns);
            Laws(c, n, o, it.depth) && (c.flags.post ==> Ends(o, it.path, it.depth))
  {
    var post := Report(c, body.n, PostVisit(it, body.kept));
    ReportShape(c, body.n, PostVisit(it, body.kept));
    ThenShape(c, n, body, post, it.depth);
    PostKept(c, n, body, it);
    if c.flags.post && c.flags.err {
      PostClosed(c, n, body, it);
    }
  }

  lemma PostKept(c: Config, n: nat, body: Out, it: Item)
    requires Laws(c, n, body, it.depth + 1)
    ensures AllKeptRight(c, n, Then(body, Report(c, body.n, PostVisit(it, body.kept))).visits)
  {
    hide KeptRight, Closed;
    var all, m := Then(body, Report(c, body.n, PostVisit(it, body.kept))).visits, |body.visits|;
    assert all[0..m] == body.visits;
    forall i | 0 <= i < |all| && all[i].phase.Post? ensures KeptRight(c, n, all, i) {
      if i < m {
        SameKept(c, n, body.visits, n, all, 0, i);
      } else {
        LastKept(c, n, all, body.kept);
      }
    }
  }

  lemma LastKept(c: Config, n: nat, vs: seq<Visit>, kept: bool)
    requires vs != [] && vs[|vs| - 1].kept == kept
    requires kept <==> exists t :: n <= t < n + |vs| - 1 && KeptAt(c, t)
    requires forall i | 0 <= i < |vs| - 1 :: vs[i].depth > vs[|vs| - 1].depth
    ensures KeptRight(c, n, vs, |vs| - 1)
  {
    if kept {
      var t :| n <= t < n + |vs| - 1 && KeptAt(c, t);
      assert Deeper(vs, t - n, |vs| - 1);
    }
  }

  lemma PostClosed(c: Config, n: nat, body: Out, it: Item)
    requires Laws(c, n, body, it.depth + 1) && c.flags.post && c.flags.err
    ensures AllClosed(c, n, Then(body, Report(c, body.n, PostVisit(it, body.kept))).visits)
  {
    hide KeptRight, Closed;
    var all, m := Then(body, Report(c, body.n, PostVisit(it, body.kept))).visits, |body.visits|;
    assert all[0..m] == body.visits;
    forall i | 0 <= i < |all| && all[i].phase.Pre? ensures Closed(c, n, all, i) {
      SameClosed(c, n, body.visits, n, all, 0, i);
    }
  }

  /** A Pre visit, and what the directory then gives. */
  lemma PreLaws(c: Config, n: nat, it: Item, dir: Out)
    requires Skip !in c.calls(n) || !c.flags.pre
    requires var pre := Report(c, n, ItemVisit(it, Pre, NoError));
             Laws(c, pre.n, dir, it.depth) && (c.flags.post && c.flags.err ==> Ends(dir, it.path, it.depth))
    ensures var o := Then(Report(c, n, ItemVisit(it, Pre, NoError)), dir);
            Laws(c, n, o, it.depth) && Starts(c, o, it.depth)
  {
    var pre := Report(c, n, ItemVisit(it, Pre, NoError));
    ReportShape(c, n, ItemVisit(it, Pre, NoError));
    ThenShape(c, n, pre, dir, it.depth);
    ThenKept(c, n, pre, dir, it.depth);
    if c.flags.post && c.flags.err {
      PreClosed(c, n, it, dir);
    }
  }

  lemma PreClosed(c: Config, n: nat, it: Item, dir: Out)
    requires Skip !in c.calls(n) || !c.flags.pre
    requires var pre := Report(c, n, ItemVisit(it, Pre, NoError)); AllClosed(c, pre.n, dir.visits)
    requires Ends(dir, it.path, it.depth)
    ensures AllClosed(c, n, Then(Report(c, n, ItemVisit(it, Pre, NoError)), dir).visits)
  {
    var pre := Report(c, n, ItemVisit(it, Pre, NoError));
    var all, m := pre.visits + dir.visits, |pre.visits|;
    BackClosed(c, n, pre.n, pre.visits, dir.visits);
    if m > 0 {
      assert Closes(all, 0, |all| - 1);
    }
    forall i | 0 <= i < |all| && all[i].phase.Pre? ensures Closed(c, n, all, i) {
      if i >= m {
        assert all[i] == dir.visits[i - m] && Closed(c, n, all, m + (i - m));
      }
    }
  }

  lemma BackClosed(c: Config, n: nat, n1: nat, a: seq<Visit>, b: seq<Visit>)
    requires AllClosed(c, n1, b) && n1 == n + |a|
    ensures forall i | 0 <= i < |b| && b[i].phase.Pre? :: Closed(c, n, a + b, |a| + i)
  {
    hide Closed;
    forall i | 0 <= i < |b| && b[i].phase.Pre? ensures Closed(c, n, a + b, |a| + i) {
      assert (a + b)[|a|..|a| + |b|] == b;
      SameClosed(c, n1, b, n, a + b, |a|, i);
    }
  }

  lemma {:induction false} ItemLaws(c: Config, n: nat, stack: seq<Ino>, it: Item)
    requires WellFormed(c) && Below(c, stack, it)
    ensures var o := VisitItem(c, n, stack, it); Laws(c, n, o, it.depth) && Starts(c, o, it.depth)
    decreases Room(c, stack), 0
  {
    hide Laws, Starts, Room, WellFormed, Below;
    if !it.kind.Dir? {
      ReportLaws(c, n, ItemVisit(it, File, NoError));
    } else if IsCycle(c, stack, it) {
      ReportLaws(c, n, ItemVisit(it, Cycle, NoError));
    } else {
      var v := ItemVisit(it, Pre, NoError);
      if c.flags.pre && Skip in c.calls(n) {
        ReportLaws(c, n, v);
      } else {
        DirLaws(c, Report(c, n, v).n, stack, it);
        PreLaws(c, n, it, VisitDir(c, Report(c, n, v).n, stack, it));
      }
    }
  }

  lemma {:induction false} DirLaws(c: Config, n: nat, stack: seq<Ino>, it: Item)
    requires WellFormed(c) && Below(c, stack, it) && it.kind.Dir? && !IsCycle(c, stack, it)
    ensures var o := VisitDir(c, n, stack, it);
            Laws(c, n, o, it.depth) && (c.flags.post && c.flags.err ==> Ends(o, it.path, it.depth))
    decreases Room(c, stack), 0, 0
  {
    hide Laws, Room, WellFormed, IsCycle, Stat;
    match Enter(c, it, |stack|)
    case Failed(err) =>
      ReportLaws(c, n, ItemVisit(it, Err, err));
    case Opened(d, list) =>
      EnterRoom(c, stack, it);
      ChildrenLaws(c, n, it.path, stack + [d], list);
      var body := Children(c, n, it.path, stack + [d], list);
      PostLaws(c, n, body, it, VisitDir(c, n, stack, it).turns);
  }

  lemma {:induction false} ChildrenLaws(c: Config, n: nat, dir: string, stack: seq<Ino>, list: seq<Entry>)
    requires WellFormed(c) && AllListed(c, stack, list)
    ensures var o := Children(c, n, dir, stack, list); Laws(c, n, o, |stack|) && Starts(c, o, |stack|)
    decreases Room(c, stack), |list| + 1
  {
    hide Room, WellFormed, Listed, VisitItem;
    if list != [] {
      ChildBelow(c, stack, dir, list[0]);
      var it := Classify(c, dir, |stack|, list[0]);
      ItemLaws(c, n, stack, it);
      var first := VisitItem(c, n, stack, it);
      ChildrenLaws(c, first.n, dir, stack, list[1..]);
      ThenLaws(c, n, first, Children(c, first.n, dir, stack, list[1..]), |stack|);
    }
  }

  /** The whole walk obeys the laws: kept marks and the nesting of Pre and Post can be read off the
      reported visits. */
  lemma WalkLaws(c: Config)
    requires WellFormed(c)
    ensures var vs := Traverse(c, 0).visits;
            && AllKeptRight(c, 0, vs)
            && (c.flags.post && c.flags.err ==> AllClosed(c, 0, vs))
  {
    hide WellFormed, KeptRight, Closed, VisitItem, RootItem;
    match RootItem(c)
    case None => ReportLaws(c, 0, Visit(Err, c.rootPath, 0, Unknown, false, false, StatFailed));
    case Some(it) =>
      RootBelow(c);
      ItemLaws(c, 0, [], it);
  }

  /** The root's path joined with the names of some entries. */
  function PathAlong(root: string, es: seq<Entry>): string {
    if es == [] then root else JoinName(PathAlong(root, es[..|es| - 1]), es[|es| - 1].name)
  }

  /** What the last of the entries is, or the root if there is none. */
  function InoAt(c: Config, es: seq<Entry>): Ino {
    if es == [] then RootIno(c) else es[|es| - 1].ino
  }

  /** Directory d may be listed at this depth, and e is in its list. */
  ghost predicate ListedIn(c: Config, d: Ino, depth: nat, e: Entry) {
    && c.fs.entries(d).Some? && e in c.fs.entries(d).value
    && (c.maxdepth >= 0 ==> depth < c.maxdepth) && (c.flags.xdev ==> d.dev == RootDev(c))
  }

  /** dirs[0] is the root, every entry is listed by the directory before it, and leads to the next. */
  ghost predicate Trail(c: Config, dirs: seq<Ino>, es: seq<Entry>) {
    && |dirs| == |es|
    && forall k | 0 <= k < |es| :: Stat(c, InoAt(c, es[..k]), k) == Some(dirs[k]) && ListedIn(c, dirs[k], k, es[k])
  }

  /** The path is made of the names along a trail from the root, as many as the visit is deep. */
  ghost predicate Named(c: Config, path: string, depth: nat) {
    exists dirs, es :: Trail(c, dirs, es) && |es| == depth && path == PathAlong(c.rootPath, es)
  }

  ghost predicate AllNamed(c: Config, vs: seq<Visit>) {
    forall i | 0 <= i < |vs| :: Named(c, vs[i].path, vs[i].depth)
  }

  lemma LongerTrail(c: Config, dirs: seq<Ino>, es: seq<Entry>, d: Ino, e: Entry)
    requires Trail(c, dirs, es) && Stat(c, InoAt(c, es), |es|) == Some(d) && ListedIn(c, d, |es|, e)
    ensures Trail(c, dirs + [d], es + [e])
    ensures PathAlong(c.rootPath, es + [e]) == JoinName(PathAlong(c.rootPath, es), e.name)
  {
    hide Stat, ListedIn;
    assert (es + [e])[..|es|] == es;
    forall k | 0 <= k < |es| ensures (es + [e])[..k] == es[..k] {
    }
  }

  lemma {:induction false} ItemNamed(c: Config, n: nat, stack: seq<Ino>, es: seq<Entry>, it: Item)
    requires WellFormed(c) && Below(c, stack, it)
    requires Trail(c, stack, es) && it.path == PathAlong(c.rootPath, es) && it.ino == InoAt(c, es) && it.depth == |es|
    ensures AllNamed(c, VisitItem(c, n, stack, it).visits)
    decreases Room(c, stack), 0
  {
    hide WellFormed, Room, Stat, PathAlong, InoAt, Trail, ListedIn;
    assert Named(c, it.path, it.depth);
    hide Named;
    if it.kind.Dir? && !IsCycle(c, stack, it) {
      var pre := Report(c, n, ItemVisit(it, Pre, NoError));
      if !(c.flags.pre && Skip in c.calls(n)) {
        EnterRoom(c, stack, it);
        match Enter(c, it, |stack|)
        case Failed(_) =>
        case Opened(d, list) =>
          TrailLength(c, stack, es);
          EnteredList(c, it, |stack|);
          ChildrenNamed(c, pre.n, it.path, stack, d, es, list);
      }
    }
  }

  lemma TrailLength(c: Config, dirs: seq<Ino>, es: seq<Entry>)
    requires Trail(c, dirs, es)
    ensures |dirs| == |es|
  {
  }

  lemma EnteredList(c: Config, it: Item, depth: nat)
    requires Enter(c, it, depth).Opened?
    ensures forall e | e in Enter(c, it, depth).list :: ListedIn(c, Enter(c, it, depth).dir, depth, e)
  {
  }

  lemma {:induction false} ChildrenNamed(c: Config, n: nat, dir: string, dirs: seq<Ino>, d: Ino, es: seq<Entry>, list: seq<Entry>)
    requires WellFormed(c) && AllListed(c, dirs + [d], list)
    requires Trail(c, dirs, es) && dir == PathAlong(c.rootPath, es) && Stat(c, InoAt(c, es), |es|) == Some(d) && |dirs| == |es|
    requires forall e | e in list :: ListedIn(c, d, |es|, e)
    ensures AllNamed(c, Children(c, n, dir, dirs + [d], list).visits)
    decreases Room(c, dirs + [d]), |list| + 1
  {
    hide WellFormed, Room, VisitItem, Named, Listed, Stat, PathAlong, Trail, ListedIn, JoinName;
    if list != [] {
      var stack := dirs + [d];
      ChildBelow(c, stack, dir, list[0]);
      var it := Classify(c, dir, |stack|, list[0]);
      LongerTrail(c, dirs, es, d, list[0]);
      ItemNamed(c, n, stack, es + [list[0]], it);
      var first := VisitItem(c, n, stack, it);
      ChildrenNamed(c, first.n, dir, dirs, d, es, list[1..]);
    }
  }

  /** Each visit's path is the root joined with the names of the entries on the way: listed by the
      root, by the directory the first entry leads to, and so on, as many as the visit is deep. */
  lemma PathsAreNamed(c: Config)
    requires WellFormed(c)
    ensures AllNamed(c, Traverse(c, 0).visits)
  {
    hide WellFormed, VisitItem, Stat;
    assert Trail(c, [], []) && Named(c, c.rootPath, 0) by {
      var none: seq<Entry> := [];
      assert PathAlong(c.rootPath, none) == c.rootPath && Trail(c, [], none);
    }
    if RootItem(c).Some? {
      RootBelow(c);
      ItemNamed(c, 0, [], [], RootItem(c).value);
    }
  }

  lemma {:induction false} DistinctBounded(s: seq<Ino>, dirs: set<Ino>)
    requires forall j, k | 0 <= j < k < |s| :: s[j] != s[k]
    requires forall k | 0 <= k < |s| :: s[k] in dirs
    ensures |s| <= |dirs|
    decreases |s|
  {
    if s != [] {
      var m := |s| - 1;
      assert forall k | 0 <= k < m :: s[..m][k] == s[k];
      DistinctBounded(s[..m], dirs - {s[m]});
    }
  }

  /** Cycles included: no directory is on the stack twice, so no walk is deeper than there are
      directories. */
  lemma StackBounded(c: Config, s: S.State)
    requires S.Ok(c, s)
    ensures |s.frames| <= |c.dirs|
    ensures forall j, k | 0 <= j < k < |s.frames| :: s.frames[j].dir != s.frames[k].dir
  {
    DistinctBounded(S.Stack(s.frames), c.dirs);
  }
}
