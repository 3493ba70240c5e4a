/** Which visits there are, and in what order, told place by place: a place is the root or an entry of
    a list that is reached, found by its position in the list, the position of that list's directory,
    and so on up to the root. */
module WalkOrder {
  import opened Wrappers
  import opened Traversal
  import W = Walker

  /** above: the directories on the way, from the root's. */
  datatype Place = Place(path: string, ino: Ino, kind: Kind, link: bool, above: seq<Ino>)

  /** What is examined: the target where links are followed, for the root also with COMFOLLOW. */
  function Look(c: Config, ino: Ino, depth: nat): Option<Ino> {
    if c.flags.logical || (c.flags.comfollow && depth == 0) then c.fs.target(ino)
    else if c.fs.lstat(ino) then Some(ino) else None
  }

  /** What the list does not tell lstat must. */
  predicate Known(c: Config, e: Entry) {
    e.kind != Unknown || c.fs.lstat(e.ino)
  }

  /** An entry is what it is, or what it is a link to where links are followed and lead somewhere. */
  function KindOf(c: Config, e: Entry): Kind {
    if !Known(c, e) then Other
    else if c.fs.kind(e.ino).Lnk? && c.flags.logical && c.fs.target(e.ino).Some? then c.fs.kind(c.fs.target(e.ino).value)
    else c.fs.kind(e.ino)
  }

  predicate Cyclic(c: Config, p: Place) {
    c.flags.logical && Look(c, p.ino, |p.above|).Some? && Look(c, p.ino, |p.above|).value in p.above
  }

  /** The directory at a place and its list: empty at the depth limit and on another device. */
  function Listing(c: Config, p: Place): Option<(Ino, seq<Entry>)> {
    if !p.kind.Dir? || Cyclic(c, p) then None
    else match Look(c, p.ino, |p.above|)
      case None => None
      case Some(d) =>
        if !c.fs.kind(d).Dir? then None
        else if c.maxdepth >= 0 && |p.above| >= c.maxdepth then Some((d, []))
        else if c.flags.xdev && d.dev != RootDev(c) then Some((d, []))
        else match c.fs.entries(d)
          case None => None
          case Some(l) => Some((d, l))
  }

  /** Whether the root is followed. */
  predicate Follows(c: Config) { c.flags.logical || c.flags.comfollow }

  /** The place at these positions, from the root on. */
  function At(c: Config, ix: seq<nat>): Option<Place>
    decreases |ix|
  {
    if ix == [] then
      match Look(c, RootIno(c), 0)
      case None => None
      case Some(d) => Some(Place(c.rootPath, RootIno(c), c.fs.kind(d), Follows(c) && c.fs.lstat(RootIno(c)) && c.fs.kind(RootIno(c)).Lnk?, []))
    else
      var i := ix[|ix| - 1];
      match At(c, ix[..|ix| - 1])
      case None => None
      case Some(p) =>
        match Listing(c, p)
        case None => None
        case Some((d, l)) =>
          if i < |l| then Some(Place(JoinName(p.path, l[i].name), l[i].ino, KindOf(c, l[i]), Known(c, l[i]) && c.fs.kind(l[i].ino).Lnk?, p.above + [d]))
            else None
  }

  /** A visit of a place. */
  datatype Label = Label(ix: seq<nat>, phase: Phase)

  /** What is at a place gives these visits, were they all asked for. */
  predicate Due(c: Config, l: Label) {
    match At(c, l.ix)
    case None => false
    case Some(p) =>
      match l.phase
      case File => !p.kind.Dir?
      case Cycle => p.kind.Dir? && Cyclic(c, p)
      case Pre => p.kind.Dir? && !Cyclic(c, p)
      case Post => p.kind.Dir? && !Cyclic(c, p) && Listing(c, p).Some?
      case Err => p.kind.Dir? && !Cyclic(c, p) && Listing(c, p).None?
  }

  /** Files are always reported, the others when their flag is set. */
  predicate Asked(f: Flags, phase: Phase) {
    match phase
    case File => true
    case Pre => f.pre
    case Post => f.post
    case Err => f.err
    case Cycle => f.cycle
  }

  predicate Prefix(a: seq<nat>, b: seq<nat>) {
    |a| <= |b| && a == b[..|a|]
  }

  predicate Closing(phase: Phase) { phase.Post? || phase.Err? }

  /** A directory comes before what is in it and closes behind that; entries come in list order. */
  predicate Before(a: Label, b: Label) {
    if a.ix == b.ix then !Closing(a.phase) && Closing(b.phase)
    else if Prefix(a.ix, b.ix) then !Closing(a.phase)
    else if Prefix(b.ix, a.ix) then Closing(b.phase)
    else exists k :: 0 <= k < |a.ix| && k < |b.ix| && a.ix[..k] == b.ix[..k] && a.ix[k] < b.ix[k]
  }

  ghost predicate Sorted(ls: seq<Label>) {
    forall i, j | 0 <= i < j < |ls| :: Before(ls[i], ls[j])
  }

  /** To skip at x is to leave out l: what is below x, and its closing. */
  predicate Hits(x: Label, l: Label) {
    x.phase.Pre? && Prefix(x.ix, l.ix) && (x.ix != l.ix || Closing(l.phase))
  }

  /** One of the visits, counted from n, at which the caller skips what l belongs to. */
  ghost predicate Skipped(c: Config, n: nat, ls: seq<Label>, l: Label) {
    exists i :: 0 <= i < |ls| && Hits(ls[i], l) && Skip in c.calls(n + i)
  }

  predicate IsVisit(c: Config, l: Label, v: Visit) {
    match At(c, l.ix)
    case None => false
    case Some(p) =>
      && v.phase == l.phase && v.path == p.path && v.depth == |l.ix| && v.kind == p.kind && v.islink == p.link
      && (v.err.NoError? <==> !l.phase.Err?)
  }

  // Parts of the traversal

  datatype Region = Under(ix: seq<nat>) | From(ix: seq<nat>, j: nat) | Inside(ix: seq<nat>) | Opening(ix: seq<nat>) | Ending(ix: seq<nat>)

  predicate In(r: Region, l: Label) {
    match r
    case Under(ix) => Prefix(ix, l.ix)
    case From(ix, j) => Prefix(ix, l.ix) && |l.ix| > |ix| && l.ix[|ix|] >= j
    case Inside(ix) => Prefix(ix, l.ix) && (l.ix != ix || Closing(l.phase))
    case Opening(ix) => l.ix == ix && !Closing(l.phase)
    case Ending(ix) => l.ix == ix && Closing(l.phase)
  }

  /** The labels of these visits, which are all there are in the region. */
  ghost predicate Good(c: Config, n: nat, vs: seq<Visit>, ls: seq<Label>, r: Region) {
    && |ls| == |vs| && (forall i | 0 <= i < |ls| :: IsVisit(c, ls[i], vs[i])) && Sorted(ls)
    && forall l :: l in ls <==> In(r, l) && Due(c, l) && Asked(c.flags, l.phase) && !Skipped(c, n, ls, l)
  }

  /** Two regions, one behind the other, that do not skip each other. */
  ghost predicate Apart(ra: Region, rb: Region, r: Region) {
    && (forall l :: In(r, l) <==> In(ra, l) || In(rb, l))
    && (forall x, y | In(ra, x) && In(rb, y) :: Before(x, y) && !Hits(y, x))
  }

  lemma SkippedInTwo(c: Config, n: nat, la: seq<Label>, lb: seq<Label>, l: Label)
    ensures Skipped(c, n, la + lb, l) <==> Skipped(c, n, la, l) || Skipped(c, n + |la|, lb, l)
  {
    if i :| 0 <= i < |la + lb| && Hits((la + lb)[i], l) && Skip in c.calls(n + i) {
      if i < |la| {
        assert Hits(la[i], l);
      } else {
        assert Hits(lb[i - |la|], l) && Skip in c.calls(n + |la| + (i - |la|));
      }
    }
    if i :| 0 <= i < |la| && Hits(la[i], l) && Skip in c.calls(n + i) {
      assert Hits((la + lb)[i], l);
    }
    if i :| 0 <= i < |lb| && Hits(lb[i], l) && Skip in c.calls(n + |la| + i) {
      assert Hits((la + lb)[|la| + i], l);
    }
  }

  lemma Joined(c: Config, n: nat, va: seq<Visit>, la: seq<Label>, ra: Region, vb: seq<Visit>, lb: seq<Label>, rb: Region, r: Region)
    requires Good(c, n, va, la, ra) && Good(c, n + |la|, vb, lb, rb) && Apart(ra, rb, r)
    requires forall y | In(rb, y) :: !Skipped(c, n, la, y)
    ensures Good(c, n, va + vb, la + lb, r)
  {
    hide Hits, Before, In, Due, IsVisit, Skipped, Asked;
    var ls := la + lb;
    forall l ensures l in ls <==> In(r, l) && Due(c, l) && Asked(c.flags, l.phase) && !Skipped(c, n, ls, l) {
      SkippedInTwo(c, n, la, lb, l);
      assert l in ls <==> l in la || l in lb;
      if In(ra, l) {
        NotHit(c, n + |la|, lb, rb, l);
        if In(rb, l) {
          assert Before(l, l);
          NotBefore(l);
        }
      }
    }
    forall i, j | 0 <= i < j < |ls| ensures Before(ls[i], ls[j]) {
      if i < |la| && j >= |la| {
        assert la[i] in la && lb[j - |la|] in lb;
      }
    }
  }

  lemma NotBefore(l: Label)
    ensures !Before(l, l)
  {
  }

  lemma NotHit(c: Config, n: nat, lb: seq<Label>, rb: Region, l: Label)
    requires (forall y | In(rb, y) :: !Hits(y, l)) && forall y | y in lb :: In(rb, y)
    ensures !Skipped(c, n, lb, l)
  {
  }

  lemma Nothing(c: Config, n: nat, r: Region)
    requires forall l | In(r, l) :: !Due(c, l) || !Asked(c.flags, l.phase)
    ensures Good(c, n, [], [], r)
  {
  }

  /** One visit, or none if it is not asked for. */
  lemma OneVisit(c: Config, n: nat, v: Visit, l: Label, r: Region)
    requires IsVisit(c, l, v) && In(r, l) && Due(c, l) && forall k | In(r, k) && Due(c, k) :: k == l || (Hits(l, k) && Skip in c.calls(n) && Asked(c.flags, l.phase))
    ensures var ls := if Asked(c.flags, l.phase) then [l] else []; Good(c, n, Report(c, n, v).visits, ls, r)
  {
    hide At, Due, In;
    assert Reported(c.flags, v.phase) == Asked(c.flags, l.phase);
    var ls := if Asked(c.flags, l.phase) then [l] else [];
    assert !Hits(l, l);
    forall k ensures k in ls <==> In(r, k) && Due(c, k) && Asked(c.flags, k.phase) && !Skipped(c, n, ls, k) {
      if Asked(c.flags, l.phase) && In(r, k) && Due(c, k) && k != l {
        assert Hits(ls[0], k) && Skip in c.calls(n + 0);
      }
    }
  }

  /** The item of the traversal at a place. */
  predicate Stands(c: Config, ix: seq<nat>, stack: seq<Ino>, it: Item) {
    && At(c, ix) == Some(Place(it.path, it.ino, it.kind, it.islink, stack)) && |ix| == |stack| == it.depth
  }

  /** No place lies below one that has no list, and none beyond the end of one. */
  lemma {:induction false} NoneBelow(c: Config, ix: seq<nat>, jx: seq<nat>)
    requires Prefix(ix, jx) && ix != jx && At(c, jx).Some?
    ensures At(c, ix).Some? && Listing(c, At(c, ix).value).Some? && jx[|ix|] < |Listing(c, At(c, ix).value).value.1|
    decreases |jx|
  {
    var up := jx[..|jx| - 1];
    if up == ix {
      assert jx[|ix|] == jx[|jx| - 1];
    } else {
      assert Prefix(ix, up) && up[|ix|] == jx[|ix|];
      NoneBelow(c, ix, up);
    }
  }

  lemma EnterIsListing(c: Config, stack: seq<Ino>, it: Item, p: Place)
    requires it.kind.Dir? && p == Place(it.path, it.ino, it.kind, it.islink, stack) && it.depth == |stack| && !IsCycle(c, stack, it)
    ensures IsCycle(c, stack, it) <==> Cyclic(c, p)
    ensures match Enter(c, it, |stack|)
            case Failed(err) => Listing(c, p) == None && !err.NoError?
            case Opened(d, l) => Listing(c, p) == Some((d, l))
  {
  }

  lemma ClassifyIsLook(c: Config, d: Ino, dir: string, depth: nat, e: Entry)
    requires WellFormed(c) && Listed(c, d, e)
    ensures Classify(c, dir, depth, e).kind == KindOf(c, e)
    ensures Classify(c, dir, depth, e).islink <==> Known(c, e) && c.fs.kind(e.ino).Lnk?
    ensures Classify(c, dir, depth, e).ino == e.ino && Classify(c, dir, depth, e).path == JoinName(dir, e.name)
    ensures Classify(c, dir, depth, e).depth == depth
  {
  }

  lemma {:induction false} ItemOrder(c: Config, n: nat, stack: seq<Ino>, it: Item, ix: seq<nat>) returns (ls: seq<Label>)
    requires WellFormed(c) && Below(c, stack, it) && Stands(c, ix, stack, it)
    ensures Good(c, n, VisitItem(c, n, stack, it).visits, ls, Under(ix)) && VisitItem(c, n, stack, it).n == n + |ls|
    decreases Room(c, stack), 0
  {
    hide WellFormed, Room, Good, At, Listing, Cyclic, IsCycle, Apart;
    if !it.kind.Dir? || IsCycle(c, stack, it) {
      ls := LeafOrder(c, n, stack, it, ix);
    } else {
      var pre := Report(c, n, ItemVisit(it, Pre, NoError));
      if c.flags.pre && Skip in c.calls(n) {
        ls := SkippedOrder(c, n, stack, it, ix);
      } else {
        var lp := PreOrder(c, n, stack, it, ix);
        var ld := DirOrder(c, pre.n, stack, it, ix);
        ls := lp + ld;
        DirApart(ix);
        PreSkipsNothing(c, n, lp, ix);
        Joined(c, n, pre.visits, lp, Opening(ix), VisitDir(c, pre.n, stack, it).visits, ld, Inside(ix), Under(ix));
      }
    }
  }

  lemma LeafOrder(c: Config, n: nat, stack: seq<Ino>, it: Item, ix: seq<nat>) returns (ls: seq<Label>)
    requires WellFormed(c) && Below(c, stack, it) && Stands(c, ix, stack, it) && (!it.kind.Dir? || IsCycle(c, stack, it))
    ensures Good(c, n, VisitItem(c, n, stack, it).visits, ls, Under(ix)) && VisitItem(c, n, stack, it).n == n + |ls|
  {
    hide WellFormed, Room, Good;
    var l := Label(ix, if it.kind.Dir? then Cycle else File);
    var v := ItemVisit(it, l.phase, NoError);
    assert IsCycle(c, stack, it) <==> Cyclic(c, At(c, ix).value);
    forall k | In(Under(ix), k) && Due(c, k) ensures k == l {
      if k.ix != ix {
        NoneBelow(c, ix, k.ix);
      }
    }
    OneVisit(c, n, v, l, Under(ix));
    ls := if Asked(c.flags, l.phase) then [l] else [];
  }

  /** A directory that is skipped. */
  lemma SkippedOrder(c: Config, n: nat, stack: seq<Ino>, it: Item, ix: seq<nat>) returns (ls: seq<Label>)
    requires WellFormed(c) && Below(c, stack, it) && Stands(c, ix, stack, it) && it.kind.Dir? && !IsCycle(c, stack, it)
    requires c.flags.pre && Skip in c.calls(n)
    ensures Good(c, n, VisitItem(c, n, stack, it).visits, ls, Under(ix)) && VisitItem(c, n, stack, it).n == n + |ls|
  {
    hide WellFormed, Room, Good, At, Listing;
    var l := Label(ix, Pre);
    OneVisit(c, n, ItemVisit(it, Pre, NoError), l, Under(ix));
    ls := [l];
  }

  lemma PreOrder(c: Config, n: nat, stack: seq<Ino>, it: Item, ix: seq<nat>) returns (ls: seq<Label>)
    requires Stands(c, ix, stack, it) && it.kind.Dir? && !IsCycle(c, stack, it)
    ensures var pre := Report(c, n, ItemVisit(it, Pre, NoError)); Good(c, n, pre.visits, ls, Opening(ix)) && pre.n == n + |ls|
    ensures ls == [] || (ls == [Label(ix, Pre)] && c.flags.pre)
  {
    hide Good, At, Listing;
    var l := Label(ix, Pre);
    OneVisit(c, n, ItemVisit(it, Pre, NoError), l, Opening(ix));
    ls := if Asked(c.flags, Pre) then [l] else [];
  }

  lemma PreSkipsNothing(c: Config, n: nat, ls: seq<Label>, ix: seq<nat>)
    requires (ls == [] || (ls == [Label(ix, Pre)] && c.flags.pre)) && !(c.flags.pre && Skip in c.calls(n))
    ensures forall y :: !Skipped(c, n, ls, y)
  {
  }

  lemma DirApart(ix: seq<nat>)
    ensures Apart(Opening(ix), Inside(ix), Under(ix)) && Apart(From(ix, 0), Ending(ix), Inside(ix))
  {
  }

  /** A directory that is entered. */
  lemma {:induction false} DirOrder(c: Config, n: nat, stack: seq<Ino>, it: Item, ix: seq<nat>) returns (ls: seq<Label>)
    requires WellFormed(c) && Below(c, stack, it) && Stands(c, ix, stack, it) && it.kind.Dir? && !IsCycle(c, stack, it)
    ensures Good(c, n, VisitDir(c, n, stack, it).visits, ls, Inside(ix)) && VisitDir(c, n, stack, it).n == n + |ls|
    decreases Room(c, stack), 0, 0
  {
    hide WellFormed, Room, Good, At, Listing, Cyclic, IsCycle, Apart, Enter;
    var p := At(c, ix).value;
    EnterIsListing(c, stack, it, p);
    match Enter(c, it, |stack|)
    case Failed(err) => ls := ErrOrder(c, n, stack, it, ix, err);
    case Opened(d, list) =>
      EnterRoom(c, stack, it);
      assert list[0..] == list;
      var lb := ChildrenOrder(c, n, stack, d, list, it.path, ix, 0);
      var body := Children(c, n, it.path, stack + [d], list);
      var le := PostOrder(c, body.n, stack, it, ix, body.kept);
      ls := lb + le;
      DirApart(ix);
      DeeperSkipNothing(c, n, lb, body.visits, ix);
      Joined(c, n, body.visits, lb, From(ix, 0), Report(c, body.n, PostVisit(it, body.kept)).visits, le, Ending(ix), Inside(ix));
  }

  lemma DeeperSkipNothing(c: Config, n: nat, ls: seq<Label>, vs: seq<Visit>, ix: seq<nat>)
    requires Good(c, n, vs, ls, From(ix, 0))
    ensures forall y | In(Ending(ix), y) :: !Skipped(c, n, ls, y)
  {
    hide Due, At;
    forall y, i | In(Ending(ix), y) && 0 <= i < |ls| ensures !Hits(ls[i], y) {
      assert ls[i] in ls;
    }
  }

  lemma ErrOrder(c: Config, n: nat, stack: seq<Ino>, it: Item, ix: seq<nat>, err: Errno) returns (ls: seq<Label>)
    requires Stands(c, ix, stack, it) && it.kind.Dir? && !IsCycle(c, stack, it) && Listing(c, At(c, ix).value) == None && !err.NoError?
    ensures var o := Report(c, n, ItemVisit(it, Err, err)); Good(c, n, o.visits, ls, Inside(ix)) && o.n == n + |ls|
  {
    hide Good;
    var l := Label(ix, Err);
    forall k | In(Inside(ix), k) && Due(c, k) ensures k == l {
      if k.ix != ix {
        NoneBelow(c, ix, k.ix);
      }
    }
    OneVisit(c, n, ItemVisit(it, Err, err), l, Inside(ix));
    ls := if Asked(c.flags, Err) then [l] else [];
  }

  lemma PostOrder(c: Config, n: nat, stack: seq<Ino>, it: Item, ix: seq<nat>, kept: bool) returns (ls: seq<Label>)
    requires Stands(c, ix, stack, it) && it.kind.Dir? && !IsCycle(c, stack, it) && Listing(c, At(c, ix).value).Some?
    ensures var o := Report(c, n, PostVisit(it, kept)); Good(c, n, o.visits, ls, Ending(ix)) && o.n == n + |ls|
  {
    hide Good, Listing;
    var l := Label(ix, Post);
    OneVisit(c, n, PostVisit(it, kept), l, Ending(ix));
    ls := if Asked(c.flags, Post) then [l] else [];
  }

  /** The entries of a list from the jth on. */
  lemma {:induction false} ChildrenOrder(c: Config, n: nat, above: seq<Ino>, d: Ino, list: seq<Entry>, dir: string, ix: seq<nat>, j: nat)
    returns (ls: seq<Label>)
    requires WellFormed(c) && j <= |list| && AllListed(c, above + [d], list[j..])
    requires At(c, ix).Some? && Listing(c, At(c, ix).value) == Some((d, list))
    requires At(c, ix).value.path == dir && At(c, ix).value.above == above && |ix| == |above|
    ensures var o := Children(c, n, dir, above + [d], list[j..]); Good(c, n, o.visits, ls, From(ix, j)) && o.n == n + |ls|
    decreases Room(c, above + [d]), |list| - j + 1
  {
    hide WellFormed, Room, Good, At, Listing, Apart, VisitItem, Listed;
    var stack, rest := above + [d], list[j..];
    if j == |list| {
      NoMore(c, n, ix, j);
      ls := [];
    } else {
      var e := list[j];
      assert rest[0] == e && rest[1..] == list[j + 1..];
      ChildBelow(c, stack, dir, e);
      var it := Classify(c, dir, |stack|, e);
      ChildAt(c, d, list, dir, ix, j, stack);
      var lf := ItemOrder(c, n, stack, it, ix + [j]);
      var first := VisitItem(c, n, stack, it);
      var lr := ChildrenOrder(c, first.n, above, d, list, dir, ix, j + 1);
      ls := lf + lr;
      ChildrenApart(ix, j);
      ChildSkipsNoOther(c, n, lf, first.visits, ix, j);
      Joined(c, n, first.visits, lf, Under(ix + [j]), Children(c, first.n, dir, stack, list[j + 1..]).visits, lr, From(ix, j + 1), From(ix, j));
    }
  }

  lemma NoMore(c: Config, n: nat, ix: seq<nat>, j: nat)
    requires At(c, ix).Some? && Listing(c, At(c, ix).value).Some? && j == |Listing(c, At(c, ix).value).value.1|
    ensures Good(c, n, [], [], From(ix, j))
  {
    hide Good;
    forall l | In(From(ix, j), l) ensures !Due(c, l) {
      if Due(c, l) {
        NoneBelow(c, ix, l.ix);
      }
    }
    Nothing(c, n, From(ix, j));
  }

  lemma ChildAt(c: Config, d: Ino, list: seq<Entry>, dir: string, ix: seq<nat>, j: nat, stack: seq<Ino>)
    requires WellFormed(c) && j < |list| && Listed(c, d, list[j]) && At(c, ix).Some? && Listing(c, At(c, ix).value) == Some((d, list))
    requires At(c, ix).value.path == dir && stack == At(c, ix).value.above + [d] && |stack| == |ix| + 1
    ensures Stands(c, ix + [j], stack, Classify(c, dir, |stack|, list[j]))
  {
    hide Listing, WellFormed, Classify, Listed, KindOf;
    ClassifyIsLook(c, d, dir, |stack|, list[j]);
    assert (ix + [j])[..|ix|] == ix;
  }

  lemma ChildrenApart(ix: seq<nat>, j: nat)
    ensures Apart(Under(ix + [j]), From(ix, j + 1), From(ix, j))
  {
    var kx := ix + [j];
    forall l ensures In(From(ix, j), l) <==> In(Under(kx), l) || In(From(ix, j + 1), l) {
      if |l.ix| > |ix| {
        assert l.ix[..|ix| + 1] == l.ix[..|ix|] + [l.ix[|ix|]];
      } else {
        assert !Prefix(kx, l.ix);
      }
    }
    forall x, y | In(Under(kx), x) && In(From(ix, j + 1), y) ensures Before(x, y) && !Hits(y, x) && !Hits(x, y) {
      var k := |ix|;
      assert x.ix[k] == kx[k] == j && y.ix[k] > j;
      assert x.ix[..k] == x.ix[..k + 1][..k] == ix == y.ix[..k];
      DifferentAt(x.ix, y.ix, k);
    }
  }

  lemma DifferentAt(a: seq<nat>, b: seq<nat>, k: nat)
    requires k < |a| && k < |b| && a[k] != b[k]
    ensures !Prefix(a, b) && !Prefix(b, a) && a != b
  {
  }

  lemma ChildSkipsNoOther(c: Config, n: nat, ls: seq<Label>, vs: seq<Visit>, ix: seq<nat>, j: nat)
    requires Good(c, n, vs, ls, Under(ix + [j]))
    ensures forall y | In(From(ix, j + 1), y) :: !Skipped(c, n, ls, y)
  {
    hide Due, At;
    forall y, i | In(From(ix, j + 1), y) && 0 <= i < |ls| ensures !Hits(ls[i], y) {
      assert ls[i] in ls;
      var k := |ix|;
      assert ls[i].ix[k] == (ix + [j])[k];
      DifferentAt(ls[i].ix, y.ix, k);
    }
  }

  /** Where the root can be examined, the visits are those due at the places there are, as far as they
      are asked for and not skipped: each once, a directory before and behind what is in it, and the
      entries in the order of their lists. Otherwise there is one error. */
  lemma TraverseOrder(c: Config) returns (ls: seq<Label>)
    requires WellFormed(c)
    ensures var vs := Traverse(c, 0).visits;
            if At(c, []).None? then
              if c.flags.err then |vs| == 1 && vs[0].phase.Err? && vs[0].path == c.rootPath && vs[0].depth == 0 else vs == []
            else
              && |ls| == |vs| && (forall i | 0 <= i < |vs| :: IsVisit(c, ls[i], vs[i])) && Sorted(ls)
              && forall l :: l in ls <==> Due(c, l) && Asked(c.flags, l.phase) && !Skipped(c, 0, ls, l)
  {
    hide WellFormed, VisitItem, Due, Sorted;
    ls := [];
    if RootItem(c).Some? {
      RootBelow(c);
      ls := ItemOrder(c, 0, [], RootItem(c).value, []);
      assert forall l: Label :: In(Under([]), l);
    }
  }

  // The order leaves no choice

  lemma Asymmetric(a: Label, b: Label)
    ensures !(Before(a, b) && Before(b, a))
  {
    if a.ix != b.ix && !Prefix(a.ix, b.ix) && !Prefix(b.ix, a.ix) && Before(a, b) && Before(b, a) {
      var k :| 0 <= k < |a.ix| && k < |b.ix| && a.ix[..k] == b.ix[..k] && a.ix[k] < b.ix[k];
      var m :| 0 <= m < |b.ix| && m < |a.ix| && b.ix[..m] == a.ix[..m] && b.ix[m] < a.ix[m];
    }
  }

  /** Two lists of the same labels in order are the same list. */
  lemma {:induction false} OneOrder(ls: seq<Label>, ms: seq<Label>)
    requires Sorted(ls) && Sorted(ms) && forall l :: l in ls <==> l in ms
    ensures ls == ms
    decreases |ls|
  {
    hide Before;
    if ls == [] {
      HasFirst(ms);
    } else {
      assert ls[0] in ms;
      var j :| 0 <= j < |ms| && ms[j] == ls[0];
      assert ms[0] in ls;
      var i :| 0 <= i < |ls| && ls[i] == ms[0];
      if i > 0 && j > 0 {
        assert Before(ls[0], ls[i]) && Before(ms[0], ms[j]);
        Asymmetric(ls[0], ms[0]);
      }
      assert ls[0] == ms[0];
      forall l ensures l in ls[1..] <==> l in ms[1..] {
        NotBefore(l);
        TailHas(ls, l);
        TailHas(ms, l);
      }
      OneOrder(ls[1..], ms[1..]);
    }
  }

  lemma HasFirst(ms: seq<Label>)
    ensures ms == [] || ms[0] in ms
  {
  }

  lemma TailHas(ls: seq<Label>, l: Label)
    requires Sorted(ls) && ls != []
    ensures l in ls[1..] <==> l in ls && l != ls[0]
  {
    NotBefore(ls[0]);
  }

  /** The files, in order. */
  function Files(vs: seq<Visit>): seq<Visit> {
    if vs == [] then [] else (if vs[0].phase.File? then [vs[0].(kept := false)] else []) + Files(vs[1..])
  }

  function FileLabels(ls: seq<Label>): (fs: seq<Label>)
    ensures forall l :: l in fs <==> l in ls && l.phase.File?
  {
    if ls == [] then [] else (if ls[0].phase.File? then [ls[0]] else []) + FileLabels(ls[1..])
  }

  function FileVisit(c: Config, l: Label): Visit
    requires At(c, l.ix).Some?
  {
    var p := At(c, l.ix).value;
    Visit(File, p.path, |l.ix|, p.kind, p.link, false, NoError)
  }

  function FileVisits(c: Config, ls: seq<Label>): seq<Visit>
    requires forall l | l in ls :: At(c, l.ix).Some?
  {
    if ls == [] then [] else [FileVisit(c, ls[0])] + FileVisits(c, ls[1..])
  }

  lemma {:induction false} FilesOf(c: Config, vs: seq<Visit>, ls: seq<Label>)
    requires |ls| == |vs| && forall i | 0 <= i < |vs| :: IsVisit(c, ls[i], vs[i])
    ensures forall l | l in FileLabels(ls) :: At(c, l.ix).Some?
    ensures Files(vs) == FileVisits(c, FileLabels(ls))
  {
    hide At;
    if vs != [] {
      assert IsVisit(c, ls[0], vs[0]);
      FilesOf(c, vs[1..], ls[1..]);
      var rest := FileLabels(ls[1..]);
      if ls[0].phase.File? {
        assert ([ls[0]] + rest)[1..] == rest;
      } else {
        assert [] + rest == rest;
      }
    }
  }

  lemma {:induction false} FilesSorted(ls: seq<Label>)
    requires Sorted(ls)
    ensures Sorted(FileLabels(ls))
  {
    hide Before;
    if ls != [] {
      FilesSorted(ls[1..]);
      var rest := FileLabels(ls[1..]);
      forall j | 0 <= j < |rest| ensures Before(ls[0], rest[j]) {
        assert rest[j] in rest;
        var k :| 0 <= k < |ls[1..]| && ls[1..][k] == rest[j];
        assert Before(ls[0], ls[k + 1]);
      }
    }
  }

  /** c with other visits asked for. */
  function Asking(c: Config, pre: bool, post: bool, err: bool, cycle: bool): Config {
    c.(flags := c.flags.(pre := pre, post := post, err := err, cycle := cycle))
  }

  lemma {:induction false} SamePlaces(c: Config, pre: bool, post: bool, err: bool, cycle: bool, ix: seq<nat>)
    ensures At(Asking(c, pre, post, err, cycle), ix) == At(c, ix)
    decreases |ix|
  {
    var d := Asking(c, pre, post, err, cycle);
    if ix != [] {
      SamePlaces(c, pre, post, err, cycle, ix[..|ix| - 1]);
      if At(c, ix[..|ix| - 1]).Some? {
        SameListing(c, pre, post, err, cycle, At(c, ix[..|ix| - 1]).value);
      }
    }
  }

  lemma SameListing(c: Config, pre: bool, post: bool, err: bool, cycle: bool, p: Place)
    ensures Listing(Asking(c, pre, post, err, cycle), p) == Listing(c, p)
  {
  }

  lemma NeverSkipped(c: Config, ls: seq<Label>, l: Label)
    requires forall n :: Skip !in c.calls(n)
    ensures !Skipped(c, 0, ls, l)
  {
  }

  /** Where nothing is skipped the files are the same, in the same order, whatever else is asked for:
      every place that is no directory, once. */
  lemma FilesAlike(c: Config, pre: bool, post: bool, err: bool, cycle: bool)
    requires WellFormed(c) && forall n :: Skip !in c.calls(n)
    ensures WellFormed(Asking(c, pre, post, err, cycle))
    ensures Files(Traverse(Asking(c, pre, post, err, cycle), 0).visits) == Files(Traverse(c, 0).visits)
  {
    var d := Asking(c, pre, post, err, cycle);
    assert WellFormed(d);
    hide WellFormed, Traverse, At, Sorted, Skipped;
    var ls := TraverseOrder(c);
    var ms := TraverseOrder(d);
    SamePlaces(c, pre, post, err, cycle, []);
    if At(c, []).Some? {
      FilesOf(c, Traverse(c, 0).visits, ls);
      FilesOf(d, Traverse(d, 0).visits, ms);
      FilesSorted(ls);
      FilesSorted(ms);
      forall l ensures l in FileLabels(ls) <==> l in FileLabels(ms) {
        SamePlaces(c, pre, post, err, cycle, l.ix);
        NeverSkipped(c, ls, l);
        NeverSkipped(d, ms, l);
      }
      OneOrder(FileLabels(ls), FileLabels(ms));
      SameFiles(c, pre, post, err, cycle, FileLabels(ls));
    }
  }

  lemma {:induction false} SameFiles(c: Config, pre: bool, post: bool, err: bool, cycle: bool, ls: seq<Label>)
    requires forall l | l in ls :: At(c, l.ix).Some? && At(Asking(c, pre, post, err, cycle), l.ix).Some?
    ensures FileVisits(Asking(c, pre, post, err, cycle), ls) == FileVisits(c, ls)
  {
    hide At;
    if ls != [] {
      SamePlaces(c, pre, post, err, cycle, ls[0].ix);
      SameFiles(c, pre, post, err, cycle, ls[1..]);
    }
  }

  /** walk_read over a whole walk, told by places. */
  method RunInOrder(c: Config) returns (vs: seq<Visit>, ghost ls: seq<Label>)
    requires WellFormed(c)
    ensures if At(c, []).None? then
              if c.flags.err then |vs| == 1 && vs[0].phase.Err? && vs[0].path == c.rootPath && vs[0].depth == 0 else vs == []
            else
              && |ls| == |vs| && (forall i | 0 <= i < |vs| :: IsVisit(c, ls[i], vs[i])) && Sorted(ls)
              && forall l :: l in ls <==> Due(c, l) && Asked(c.flags, l.phase) && !Skipped(c, 0, ls, l)
  {
    hide WellFormed, Traverse, At, Sorted, Skipped, Due;
    vs := W.Run(c);
    ls := TraverseOrder(c);
  }
}
