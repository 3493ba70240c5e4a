/** The arena: blocks are cut from the front of chunks, and given back from the newest on. Addresses
    are numbers; memory is what is stored at them. */
module Arena {
  import opened Wrappers

  const HDR := 16
  const SIZE_MAX := 0xFFFF_FFFF_FFFF_FFFF

  /** A chunk: its header's address, and its size with the header. */
  datatype Chunk = Chunk(base: int, size: int)

  /** A block in use, and the chunk it lies in. */
  datatype Block = Block(addr: int, size: int, chunk: nat)

  /** What arena_tell gave: the chunk it stood in, or none, and how far it was used. */
  datatype Pos = Pos(chunk: Option<int>, beg: int)

  /** A position that may still be rewound to; how many blocks, chunks and bytes there were then. */
  datatype Mark = Mark(pos: Pos, blocks: nat, chunks: nat, used: int)

  datatype State = State(chunks: seq<Chunk>, beg: int, end: int, top: Option<int>, live: seq<Block>, marks: seq<Mark>)

  /** The get function of a source: asked for so many bytes, it gives a chunk or none. */
  type Source = nat -> Option<Chunk>

  function Data(c: Chunk): int { c.base + HDR }

  function End(c: Chunk): int { c.base + c.size }

  predicate Apart(c: Chunk, d: Chunk) { End(c) <= d.base || End(d) <= c.base }

  predicate Usable(c: Chunk) { c.base > 0 && c.size >= HDR && End(c) <= SIZE_MAX }

  ghost predicate ChunksSound(cs: seq<Chunk>) {
    && (forall i | 0 <= i < |cs| :: Usable(cs[i]))
    && (forall i, j | 0 <= i < j < |cs| :: Apart(cs[i], cs[j]))
  }

  /** How far chunk i is used: the newest as far as beg. */
  function Limit(s: State, i: nat): int
    requires i < |s.chunks|
  {
    if i == |s.chunks| - 1 then s.beg else End(s.chunks[i])
  }

  /** b lies in the used data part of its chunk. */
  predicate InChunk(s: State, b: Block) {
    && b.chunk < |s.chunks| && b.size >= 0
    && Data(s.chunks[b.chunk]) <= b.addr && b.addr + b.size <= Limit(s, b.chunk)
  }

  /** b was cut before c. */
  predicate Before(b: Block, c: Block) {
    b.chunk < c.chunk || (b.chunk == c.chunk && b.addr + b.size <= c.addr)
  }

  ghost predicate BlocksSound(s: State) {
    && (forall k | 0 <= k < |s.live| :: InChunk(s, s.live[k]))
    && (forall k, l | 0 <= k < l < |s.live| :: Before(s.live[k], s.live[l]))
  }

  /** The position is on the chain, and the blocks of then lie before it. */
  ghost predicate Holds(s: State, m: Mark) {
    && m.blocks <= |s.live| && m.chunks <= |s.chunks|
    && if m.chunks == 0 then m == Mark(Pos(None, 0), 0, 0, 0)
       else
         var c := s.chunks[m.chunks - 1];
         && m.pos.chunk == Some(c.base) && Data(c) <= m.pos.beg <= End(c)
         && m.used == Used(s.chunks[..m.chunks], m.pos.beg)
         && forall k | 0 <= k < m.blocks :: LiesBefore(s.live[k], m)
  }

  predicate LiesBefore(b: Block, m: Mark) {
    b.chunk + 1 < m.chunks || (b.chunk + 1 == m.chunks && b.addr + b.size <= m.pos.beg)
  }

  ghost predicate MarksSound(s: State) {
    && (forall k | 0 <= k < |s.marks| :: Holds(s, s.marks[k]))
    && (forall k, l | 0 <= k < l < |s.marks| :: s.marks[k].blocks <= s.marks[l].blocks && s.marks[k].chunks <= s.marks[l].chunks)
  }

  predicate FrontSound(s: State) {
    if s.chunks == [] then s.beg == 0 && s.end == 0 && s.top.None? && s.live == []
    else
      var c := s.chunks[|s.chunks| - 1];
      Data(c) <= s.beg <= s.end == End(c)
  }

  predicate TopSound(s: State) {
    s.top.Some? ==>
      && s.live != []
      && var b := s.live[|s.live| - 1];
      b.addr == s.top.value && b.addr + b.size == s.beg && b.chunk == |s.chunks| - 1
  }

  ghost predicate Sound(s: State) {
    ChunksSound(s.chunks) && FrontSound(s) && BlocksSound(s) && TopSound(s) && MarksSound(s)
  }

  predicate Disjoint(b: Block, c: Block) {
    b.addr + b.size <= c.addr || c.addr + c.size <= b.addr
  }

  /** Blocks in use do not meet, and lie in the data parts of chunks on the chain. */
  lemma BlocksAreApart(s: State)
    requires Sound(s)
    ensures forall k, l | 0 <= k < l < |s.live| :: Disjoint(s.live[k], s.live[l])
    ensures forall k | 0 <= k < |s.live| ::
              s.live[k].chunk < |s.chunks| && Data(s.chunks[s.live[k].chunk]) <= s.live[k].addr
              && s.live[k].addr + s.live[k].size <= End(s.chunks[s.live[k].chunk])
  {
    forall k, l | 0 <= k < l < |s.live|
      ensures Disjoint(s.live[k], s.live[l])
    {
      var b, c := s.live[k], s.live[l];
      assert InChunk(s, b) && InChunk(s, c) && Before(b, c);
      if b.chunk < c.chunk {
        assert Apart(s.chunks[b.chunk], s.chunks[c.chunk]);
      }
    }
  }

  /** Bytes handed out, with the slack of retired chunks. */
  function Used(chunks: seq<Chunk>, beg: int): int {
    if chunks == [] then 0
    else beg - Data(chunks[|chunks| - 1]) + Retired(chunks[..|chunks| - 1])
  }

  function Retired(chunks: seq<Chunk>): int {
    if chunks == [] then 0 else chunks[|chunks| - 1].size - HDR + Retired(chunks[..|chunks| - 1])
  }

  lemma OwnBases(cs: seq<Chunk>)
    requires ChunksSound(cs)
    ensures forall i, j | 0 <= i < j < |cs| :: cs[i].base != cs[j].base
  {
    forall i, j | 0 <= i < j < |cs|
      ensures cs[i].base != cs[j].base
    {
      assert Usable(cs[i]) && Usable(cs[j]) && Apart(cs[i], cs[j]);
    }
  }

  /** There is an aligned place for size bytes behind what is used of the present chunk. */
  ghost predicate HasRoom(s: State, size: nat, align: nat)
    requires align > 0
  {
    exists a :: s.beg <= a && a + size <= s.end && a % align == 0
  }

  lemma RoomIs(s: State, size: nat, align: nat)
    requires align > 0
    ensures HasRoom(s, size, align) <==> s.beg + (-s.beg) % align + size <= s.end
  {
    var first := s.beg + (-s.beg) % align;
    Padded(s.beg, align);
    if a :| s.beg <= a && a + size <= s.end && a % align == 0 {
      if a < first {
        NoneBetween(a, first, align);
      }
    }
    if first + size <= s.end {
      assert first % align == 0 && s.beg <= first;
    }
  }

  /** Multiples of n are at least n apart. */
  lemma NoneBetween(a: int, b: int, n: nat)
    requires n > 0 && a % n == 0 && b % n == 0 && a < b
    ensures b - a >= n
  {
    assert a == n * (a / n) && b == n * (b / n);
    Far(b / n - a / n, n);
    assert n * (b / n) - n * (a / n) == (b / n - a / n) * n;
  }

  // What the operations do to the state

  /** A new chunk in front. */
  function WithChunk(s: State, c: Chunk): State {
    s.(chunks := s.chunks + [c], beg := Data(c), end := End(c), top := None)
  }

  lemma WithChunkSound(s: State, c: Chunk)
    requires Sound(s) && Usable(c) && forall i | 0 <= i < |s.chunks| :: Apart(s.chunks[i], c)
    ensures Sound(WithChunk(s, c))
  {
    var t := WithChunk(s, c);
    forall k | 0 <= k < |t.marks|
      ensures Holds(t, t.marks[k])
    {
      assert Holds(s, t.marks[k]) && t.chunks[..t.marks[k].chunks] == s.chunks[..t.marks[k].chunks];
    }
    forall k | 0 <= k < |t.live|
      ensures InChunk(t, t.live[k])
    {
      assert InChunk(s, s.live[k]);
    }
  }

  /** A block of the given size cut at p, in the newest chunk. */
  function WithBlock(s: State, p: int, size: nat): State
    requires s.chunks != []
  {
    s.(beg := p + size, top := Some(p), live := s.live + [Block(p, size, |s.chunks| - 1)])
  }

  lemma WithBlockSound(s: State, p: int, size: nat)
    requires Sound(s) && s.chunks != [] && s.beg <= p && p + size <= s.end
    ensures Sound(WithBlock(s, p, size))
  {
    var t := WithBlock(s, p, size);
    forall k | 0 <= k < |t.live|
      ensures InChunk(t, t.live[k])
    {
      assert k < |s.live| ==> InChunk(s, s.live[k]);
    }
    forall k, l | 0 <= k < l < |t.live|
      ensures Before(t.live[k], t.live[l])
    {
      assert InChunk(s, s.live[k]);
      assert l < |s.live| ==> Before(s.live[k], s.live[l]);
    }
    forall k | 0 <= k < |t.marks|
      ensures Holds(t, t.marks[k])
    {
      assert Holds(s, t.marks[k]);
    }
  }

  /** The newest block with another size. */
  function Resized(s: State, size: nat): State
    requires s.live != []
  {
    var b := s.live[|s.live| - 1];
    s.(beg := b.addr + size, live := s.live[|s.live| - 1 := b.(size := size)])
  }

  lemma ResizedSound(s: State, size: nat)
    requires Sound(s) && s.top.Some? && s.top.value + size <= s.end
    requires s.live[|s.live| - 1].size < size ==> s.marks == [] || s.marks[|s.marks| - 1].blocks < |s.live|
    ensures Sound(Resized(s, size))
  {
    var t := Resized(s, size);
    var n := |s.live|;
    forall k | 0 <= k < n
      ensures InChunk(t, t.live[k])
    {
      assert InChunk(s, s.live[k]);
      assert k < n - 1 ==> Before(s.live[k], s.live[n - 1]);
    }
    forall k, l | 0 <= k < l < n
      ensures Before(t.live[k], t.live[l])
    {
      assert Before(s.live[k], s.live[l]);
    }
    forall k | 0 <= k < |t.marks|
      ensures Holds(t, t.marks[k])
    {
      assert Holds(s, t.marks[k]) && t.marks[k].blocks <= s.marks[|s.marks| - 1].blocks;
    }
  }

  /** The marks noted when there were fewer than n blocks. */
  function Older(marks: seq<Mark>, n: nat): (r: seq<Mark>)
    ensures r <= marks && (r != [] ==> r[|r| - 1].blocks < n)
    ensures |r| < |marks| ==> marks[|r|].blocks >= n
  {
    if marks == [] || marks[|marks| - 1].blocks < n then marks else Older(marks[..|marks| - 1], n)
  }

  lemma FewerMarks(s: State, n: nat)
    requires Sound(s)
    ensures Sound(s.(marks := Older(s.marks, n)))
  {
    hide MarksSound, ChunksSound;
    FirstMarks(s, Older(s.marks, n));
    var t := s.(marks := Older(s.marks, n));
    assert forall k | 0 <= k < |t.live| :: InChunk(s, s.live[k]) ==> InChunk(t, t.live[k]);
  }

  lemma FirstMarks(s: State, ms: seq<Mark>)
    requires MarksSound(s) && ms <= s.marks
    ensures MarksSound(s.(marks := ms))
  {
    hide Used, LiesBefore;
    var t := s.(marks := ms);
    forall k | 0 <= k < |ms|
      ensures Holds(t, ms[k])
    {
      assert Holds(s, s.marks[k]);
    }
  }

  /** A position noted. */
  function Told(s: State): Mark {
    if s.chunks == [] then Mark(Pos(None, 0), 0, 0, 0)
    else Mark(Pos(Some(s.chunks[|s.chunks| - 1].base), s.beg), |s.live|, |s.chunks|, Used(s.chunks, s.beg))
  }

  lemma ToldSound(s: State)
    requires Sound(s)
    ensures Sound(s.(marks := s.marks + [Told(s)]))
  {
    hide Used;
    var m := Told(s);
    var t := s.(marks := s.marks + [m]);
    assert s.chunks[..|s.chunks|] == s.chunks;
    forall k | 0 <= k < |s.live|
      ensures s.chunks != [] ==> LiesBefore(s.live[k], m)
    {
      assert InChunk(s, s.live[k]);
    }
    assert forall k | 0 <= k < |s.live| :: InChunk(t, s.live[k]) by {
      forall k | 0 <= k < |s.live| ensures InChunk(t, s.live[k]) { assert InChunk(s, s.live[k]); }
    }
    forall k | 0 <= k < |t.marks|
      ensures Holds(t, t.marks[k])
    {
      assert k < |s.marks| ==> Holds(s, s.marks[k]);
    }
    forall k | 0 <= k < |s.marks|
      ensures s.marks[k].blocks <= m.blocks && s.marks[k].chunks <= m.chunks
    {
      assert Holds(s, s.marks[k]);
    }
  }

  /** Back at mark q: what was cut since is gone. */
  function Rewound(s: State, q: nat): State
    requires q < |s.marks| && s.marks[q].chunks <= |s.chunks| && s.marks[q].blocks <= |s.live|
  {
    var m := s.marks[q];
    var marks := s.marks[..q + 1];
    if m.chunks > 0 then
      State(s.chunks[..m.chunks], m.pos.beg, End(s.chunks[m.chunks - 1]), None, s.live[..m.blocks], marks)
    else if s.chunks == [] then s.(top := None, marks := marks)
    else State(s.chunks[..1], Data(s.chunks[0]), End(s.chunks[0]), None, [], marks)
  }

  lemma RewoundSound(s: State, q: nat)
    requires Sound(s) && q < |s.marks|
    ensures Holds(s, s.marks[q])
    ensures Sound(Rewound(s, q)) && Used(Rewound(s, q).chunks, Rewound(s, q).beg) == s.marks[q].used
  {
    hide BlocksSound, MarksSound;
    assert Holds(s, s.marks[q]) by { MarkHolds(s, q); }
    RewoundBlocks(s, q);
    RewoundMarks(s, q);
    var t := Rewound(s, q);
    assert t.chunks != [] ==> t.chunks[..|t.chunks|] == t.chunks;
  }

  lemma MarkHolds(s: State, q: nat)
    requires MarksSound(s) && q < |s.marks|
    ensures Holds(s, s.marks[q])
    ensures forall k | 0 <= k <= q :: s.marks[k].blocks <= s.marks[q].blocks && s.marks[k].chunks <= s.marks[q].chunks
  {
  }

  lemma RewoundBlocks(s: State, q: nat)
    requires BlocksSound(s) && FrontSound(s) && q < |s.marks| && Holds(s, s.marks[q])
    ensures BlocksSound(Rewound(s, q))
  {
    var m, t := s.marks[q], Rewound(s, q);
    forall k | 0 <= k < |t.live|
      ensures InChunk(t, t.live[k])
    {
      assert InChunk(s, s.live[k]);
      assert m.chunks > 0 ==> LiesBefore(s.live[k], m);
    }
    forall k, l | 0 <= k < l < |t.live|
      ensures Before(t.live[k], t.live[l])
    {
      assert Before(s.live[k], s.live[l]);
    }
  }

  lemma RewoundMarks(s: State, q: nat)
    requires MarksSound(s) && q < |s.marks| && Holds(s, s.marks[q])
    ensures MarksSound(Rewound(s, q))
  {
    hide Used;
    var m, t := s.marks[q], Rewound(s, q);
    MarkHolds(s, q);
    forall k | 0 <= k <= q
      ensures Holds(t, t.marks[k])
    {
      assert Holds(s, s.marks[k]);
      assert t.chunks[..t.marks[k].chunks] == s.chunks[..t.marks[k].chunks];
    }
  }

  class Arena {
    var chunks: seq<Chunk>
    var beg: int
    var end: int
    var top: Option<int>
    var grows: bool
    var csize: nat
    var mem: int -> int
    ghost var live: seq<Block>
    ghost var marks: seq<Mark>

    ghost function Now(): State
      reads this
    {
      State(chunks, beg, end, top, live, marks)
    }

    ghost predicate Valid()
      reads this
    {
      Sound(Now())
    }

    /** arena_init */
    constructor Init(grows: bool, chunk: nat)
      ensures Valid() && live == [] && marks == [] && chunks == [] && this.grows == grows
      ensures csize == if chunk == 0 then 8192 else chunk
    {
      this.grows := grows;
      csize := if chunk == 0 then 8192 else chunk;
      chunks, beg, end, top, live, marks := [], 0, 0, None, [], [];
      mem := _ => 0;
    }

    /** arena_init_fixed: a header at the first multiple of 16 in the buffer, if it fits. */
    constructor Fixed(buf: int, len: nat, mem: int -> int)
      requires buf > 0 && buf + len <= SIZE_MAX
      ensures Valid() && live == [] && marks == [] && !grows && this.mem == mem
      ensures chunks == [] || (|chunks| == 1 && chunks[0].base % 16 == 0 && buf <= chunks[0].base && End(chunks[0]) == buf + len)
      ensures len >= HDR + 15 ==> chunks != []
    {
      var pad := (-buf) % 16;
      var fits := len >= pad && len - pad >= HDR;
      grows, csize, top, live, marks, this.mem := false, 0, None, [], [], mem;
      chunks := if fits then [Chunk(buf + pad, len - pad)] else [];
      beg := if fits then buf + pad + HDR else 0;
      end := if fits then buf + len else 0;
    }

    /** What the source gives for a block of this size: it is asked for a chunk of the usual size, or
        for more if that is too small, and may give a larger one than it is asked for. */
    function Offer(source: Source, size: nat, align: nat): Option<Chunk>
      requires align > 0
      reads this`grows, this`csize
    {
      var want := HDR + align - 1;
      if !grows || size > SIZE_MAX - want then None
      else match source(if csize > want + size then csize else want + size)
        case None => None
        case Some(c) => if c.size < want + size then None else Some(c)
    }

    /** The source gives memory that is not in use. */
    ghost predicate Fair(source: Source)
      reads this`chunks
    {
      forall n | source(n).Some? :: Usable(source(n).value) && forall i | 0 <= i < |chunks| :: Apart(chunks[i], source(n).value)
    }

    /** arena_more: a chunk from the source, if it gives one that is large enough. */
    method More(size: nat, align: nat, source: Source) returns (ok: bool)
      requires Valid() && align > 0 && Fair(source)
      modifies this`chunks, this`beg, this`end, this`top
      ensures ok == Offer(source, size, align).Some?
      ensures ok ==> Now() == WithChunk(old(Now()), Offer(source, size, align).value) && Valid() && end - beg >= align - 1 + size
      ensures !ok ==> Now() == old(Now())
    {
      var want := HDR + align - 1;
      if !grows || size > SIZE_MAX - want {
        return false;
      }
      want := want + size;
      var got := if csize > want then csize else want;
      var c := source(got);
      if c.None? || c.value.size < want {
        return false;
      }
      WithChunkSound(Now(), c.value);
      chunks := chunks + [c.value];
      beg, end, top := Data(c.value), End(c.value), None;
      return true;
    }

    /** arena_take. asked: how often a chunk was wanted; once is enough. A block that fits behind the
        ones in the present chunk goes there; for any other the arena must grow, and its source must
        give a chunk with room for the header, the block and the worst alignment. */
    method Take(size0: nat, align0: nat, source: Source) returns (p: Option<int>, asked: nat)
      requires Valid() && Fair(source)
      modifies this`chunks, this`beg, this`end, this`top, this`live
      ensures Valid() && asked <= 1 && marks == old(marks)
      ensures p.None? ==> Now() == old(Now()) && Offer(source, Or1(size0), Or1(align0)).None?
      ensures p.Some? ==>
                && p.value % Or1(align0) == 0
                && chunks != [] && live == old(live) + [Block(p.value, Or1(size0), |chunks| - 1)] && top == p
      ensures HasRoom(old(Now()), Or1(size0), Or1(align0)) ==>
                p.Some? && asked == 0 && chunks == old(chunks) && old(beg) <= p.value < old(beg) + Or1(align0)
      ensures !HasRoom(old(Now()), Or1(size0), Or1(align0)) ==>
                var want := HDR + Or1(align0) - 1 + Or1(size0);
                var given := source(if csize > want then csize else want);
                && asked == 1
                && (p.Some? <==> grows && want <= SIZE_MAX && given.Some? && given.value.size >= want)
                && (p.Some? ==> chunks == old(chunks) + [given.value])
    {
      hide ChunksSound, BlocksSound, MarksSound, TopSound, HasRoom;
      var size, align := Or1(size0), Or1(align0);
      asked := 0;
      RoomIs(Now(), size, align);
      var pad := (-beg) % align;
      var ok := end - beg >= pad && end - beg - pad >= size;
      while !ok
        invariant Valid() && asked <= 1 && live == old(live) && marks == old(marks)
        invariant pad == (-beg) % align && ok == (end - beg >= pad && end - beg - pad >= size)
        invariant asked == 0 ==> Now() == old(Now())
        invariant asked == 1 ==> ok && chunks != [] && !HasRoom(old(Now()), size, align)
        invariant asked == 1 ==> Offer(source, size, align).Some? && chunks == old(chunks) + [Offer(source, size, align).value]
        decreases 1 - asked
        modifies this`chunks, this`beg, this`end, this`top
      {
        asked := asked + 1;
        var more := More(size, align, source);
        if !more {
          return None, asked;
        }
        pad := (-beg) % align;
        ok := end - beg >= pad && end - beg - pad >= size;
      }
      var at := CutFront(pad, size, align);
      return Some(at), asked;
    }

    /** The end of arena_take: the block is cut off the free part. */
    method CutFront(pad: int, size: nat, align: nat) returns (at: int)
      requires Valid() && size > 0 && align > 0 && pad == (-beg) % align && end - beg - pad >= size
      modifies this`beg, this`top, this`live
      ensures Valid() && chunks != [] && at == old(beg) + pad && at % align == 0 && old(beg) <= at < old(beg) + align
      ensures live == old(live) + [Block(at, size, |chunks| - 1)] && top == Some(at)
    {
      hide ChunksSound, BlocksSound, MarksSound, TopSound;
      Padded(beg, align);
      WithBlockSound(Now(), beg + pad, size);
      at := beg + pad;
      live := live + [Block(at, size, |chunks| - 1)];
      beg, top := at + size, Some(at);
    }

    /** arena_alloc: the block is zeroed, and nothing else is. */
    method Alloc(size: nat, align: nat, source: Source) returns (p: Option<int>)
      requires Valid() && Fair(source)
      modifies this`chunks, this`beg, this`end, this`top, this`live, this`mem
      ensures Valid() && marks == old(marks)
      ensures p.None? ==> Now() == old(Now()) && mem == old(mem)
      ensures p.Some? ==> p.value % Or1(align) == 0 && chunks != [] && live == old(live) + [Block(p.value, Or1(size), |chunks| - 1)]
      ensures p.Some? ==> forall a | p.value <= a < p.value + size :: mem(a) == 0
      ensures forall k, a | 0 <= k < |old(live)| && InBlock(old(live)[k], a) :: mem(a) == old(mem)(a)
    {
      hide ChunksSound, BlocksSound, MarksSound, TopSound;
      ghost var was := live;
      var asked;
      p, asked := Take(size, align, source);
      if p.Some? {
        BlocksAreApart(Now());
        forall k, a | 0 <= k < |was| && InBlock(was[k], a)
          ensures !(p.value <= a < p.value + size)
        {
          assert live[k] == was[k] && Disjoint(live[k], live[|was|]);
        }
        mem := Zeroed(mem, p.value, size);
      }
    }

    /** arena_grow: the newest block only, in place, the new bytes zeroed. Marks noted behind the block
        before it grew would cut it: they can no longer be rewound to. */
    method Grow(p: int, oldsize: nat, newsize: nat) returns (r: Option<int>)
      requires Valid()
      modifies this`beg, this`live, this`mem, this`marks
      ensures Valid() && chunks == old(chunks)
      ensures marks == if r.Some? && newsize > oldsize then Older(old(marks), |old(live)|) else old(marks)
      ensures r.None? ==> Now() == old(Now()) && mem == old(mem)
      ensures r.Some? <==> top == Some(p) && p + oldsize == old(beg) && (newsize <= oldsize || newsize <= end - p)
      ensures r.Some? ==> r == Some(p)
      ensures r.Some? && newsize > oldsize ==>
                && live == old(live)[..|old(live)| - 1] + [Block(p, newsize, |chunks| - 1)]
                && (forall a | p + oldsize <= a < p + newsize :: mem(a) == 0)
      ensures r.Some? && newsize <= oldsize ==> live == old(live)
      ensures forall k, a | 0 <= k < |old(live)| && InBlock(old(live)[k], a) :: mem(a) == old(mem)(a)
    {
      hide ChunksSound, BlocksSound, MarksSound;
      if top != Some(p) || p + oldsize != beg {
        return None;
      }
      if newsize <= oldsize {
        return Some(p);
      }
      if end - p < newsize {
        return None;
      }
      ghost var was := live;
      FewerMarks(Now(), |live|);
      marks := Older(marks, |live|);
      ResizedSound(Now(), newsize);
      BlocksAreApart(Resized(Now(), newsize));
      live := live[|live| - 1 := live[|live| - 1].(size := newsize)];
      assert live == was[..|was| - 1] + [Block(p, newsize, |chunks| - 1)];
      beg := p + newsize;
      forall k, a | 0 <= k < |was| && InBlock(was[k], a)
        ensures !(p + oldsize <= a < p + newsize)
      {
        assert k < |was| - 1 ==> live[k] == was[k] && Disjoint(live[k], live[|was| - 1]);
      }
      mem := Zeroed(mem, p + oldsize, newsize - oldsize);
      return Some(p);
    }

    /** arena_trim: the slack of the newest block. */
    method Trim(p: Option<int>, oldsize: nat, newsize: nat)
      requires Valid()
      modifies this`beg, this`live
      ensures Valid() && marks == old(marks)
      ensures if p.Some? && newsize < oldsize && top == p && p.value + oldsize == old(beg) then
                live == old(live)[..|old(live)| - 1] + [Block(p.value, newsize, |chunks| - 1)] && beg == p.value + newsize
              else live == old(live) && beg == old(beg)
    {
      hide ChunksSound, BlocksSound, MarksSound;
      if p.Some? && newsize < oldsize && top == p && p.value + oldsize == beg {
        ResizedSound(Now(), newsize);
        ghost var was := live;
        live := live[|live| - 1 := live[|live| - 1].(size := newsize)];
        assert live == was[..|was| - 1] + [Block(p.value, newsize, |chunks| - 1)];
        beg := p.value + newsize;
      }
    }

    /** arena_tell. The mark noted lasts until something older is rewound to. */
    method Tell() returns (pos: Pos)
      requires Valid()
      modifies this`marks
      ensures Valid() && marks == old(marks) + [Told(old(Now()))] && pos == Told(old(Now())).pos
      ensures marks[|old(marks)|].used == Used(chunks, beg)
    {
      ToldSound(Now());
      marks := marks + [Told(Now())];
      return if chunks == [] then Pos(None, 0) else Pos(Some(chunks[|chunks| - 1].base), beg);
    }

    /** arena_reset: every block gone, the first chunk kept. */
    method Reset()
      requires Valid()
      modifies this`chunks, this`beg, this`end, this`top, this`live, this`marks
      ensures Valid() && live == [] && marks == [] && chunks == old(chunks)[..if old(chunks) == [] then 0 else 1]
      ensures Used(chunks, beg) == 0
    {
      marks := [];
      FirstChunk();
      live := [];
    }

    method FirstChunk()
      modifies this`chunks, this`beg, this`end, this`top
      ensures chunks == old(chunks)[..if old(chunks) == [] then 0 else 1]
      ensures old(chunks) == [] ==> beg == old(beg) && end == old(end) && top == old(top)
      ensures chunks != [] ==> beg == Data(chunks[0]) && end == End(chunks[0]) && top == None
    {
      if chunks == [] {
        return;
      }
      while |chunks| > 1
        invariant 1 <= |chunks| <= |old(chunks)| && chunks == old(chunks)[..|chunks|]
      {
        chunks := chunks[..|chunks| - 1];
      }
      beg, end, top := Data(chunks[0]), End(chunks[0]), None;
    }

    /** arena_rewind to a position that still holds: the blocks of then are left, untouched, and as
        many bytes are used as were. */
    method Rewind(pos: Pos, ghost q: nat)
      requires Valid() && q < |marks| && marks[q].pos == pos
      modifies this`chunks, this`beg, this`end, this`top, this`live, this`marks
      ensures Valid() && live == old(live)[..old(marks)[q].blocks] && marks == old(marks)[..q + 1]
      ensures Used(chunks, beg) == old(marks)[q].used
    {
      hide BlocksSound, MarksSound, TopSound, Used;
      ghost var s, m := Now(), marks[q];
      RewoundSound(s, q);
      OwnBases(s.chunks);
      if pos.chunk.None? {
        FirstChunk();
      } else {
        while chunks[|chunks| - 1].base != pos.chunk.value
          invariant m.chunks <= |chunks| <= |s.chunks| && chunks == s.chunks[..|chunks|]
          decreases |chunks|
          modifies this`chunks
        {
          chunks := chunks[..|chunks| - 1];
        }
        beg, end, top := pos.beg, End(chunks[|chunks| - 1]), None;
      }
      live, marks := live[..m.blocks], marks[..q + 1];
    }

    /** arena_used */
    method UsedBytes() returns (n: int)
      requires Valid()
      ensures n == Used(chunks, beg)
    {
      if chunks == [] {
        return 0;
      }
      n := beg - Data(chunks[|chunks| - 1]);
      var i: nat := |chunks| - 1;
      while i > 0
        invariant i < |chunks| && n + Retired(chunks[..i]) == Used(chunks, beg)
      {
        assert chunks[..i][..i - 1] == chunks[..i - 1];
        n := n + (chunks[i - 1].size - HDR);
        i := i - 1;
      }
    }
  }

  function Or1(n: nat): nat { if n == 0 then 1 else n }

  predicate InBlock(b: Block, a: int) { b.addr <= a < b.addr + b.size }

  function Zeroed(mem: int -> int, p: int, n: nat): int -> int {
    a => if p <= a < p + n then 0 else mem(a)
  }

  lemma Padded(beg: int, align: int)
    requires align > 0
    ensures 0 <= (-beg) % align < align && (beg + (-beg) % align) % align == 0
  {
    var q, r := (-beg) / align, (-beg) % align;
    assert -beg == q * align + r;
    assert beg + r == (-q) * align + 0;
    Remainder(beg + r, align, -q, 0);
  }

  lemma Remainder(a: int, n: int, q: int, r: int)
    requires n > 0 && a == q * n + r && 0 <= r < n
    ensures a % n == r
  {
    var k := q - a / n;
    assert a == a / n * n + a % n;
    assert k * n == a % n - r;
    Far(k, n);
  }

  lemma Far(k: int, n: int)
    requires n > 0
    ensures (k >= 1 ==> k * n >= n) && (k <= -1 ==> k * n <= -n)
  {
  }

  /** What arena_used counts: in the newest chunk what lies between its header of 16 bytes and the front,
      in each of the others all behind the header. */
  lemma UsedCounts(cs: seq<Chunk>, c: Chunk, d: Chunk, beg: int)
    ensures Used([], beg) == 0 && Used([c], beg) == beg - (c.base + 16)
    ensures Used(cs + [c, d], beg) == Used(cs + [c], c.base + c.size) + (beg - (d.base + 16))
  {
    assert (cs + [c, d])[..|cs| + 1] == cs + [c] && (cs + [c])[..|cs|] == cs;
    assert [c][..0] == [];
  }
}
