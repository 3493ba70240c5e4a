/** dirlist_sort: the records of a packed directory listing, sorted by name in their own blob. */
module DirSort {
  import opened HeapSort

  const NUL := '\0'

  /** A record: a type byte, a name, a NUL. */
  datatype Record = Record(kind: char, name: string)

  predicate Named(r: Record) { NUL !in r.name }

  predicate AllNamed(rs: seq<Record>) {
    forall i | 0 <= i < |rs| :: Named(rs[i])
  }

  function Packed(r: Record): (s: string)
    ensures |s| == |r.name| + 2
  {
    [r.kind] + r.name + [NUL]
  }

  function Pack(rs: seq<Record>): string {
    if rs == [] then [] else Packed(rs[0]) + Pack(rs[1..])
  }

  /** str_len: the bytes before the next NUL. */
  function StrLen(s: string, p: nat): (n: nat)
    requires p <= |s|
    ensures p + n <= |s| && NUL !in s[p..p + n]
    ensures p + n < |s| ==> s[p + n] == NUL
    decreases |s| - p
  {
    if p == |s| || s[p] == NUL then 0 else
    var n := StrLen(s, p + 1);
    assert s[p..p + 1 + n] == [s[p]] + s[p + 1..p + 1 + n];
    1 + n
  }

  /** The record at an offset. */
  function RecordAt(s: string, p: nat): Record {
    if p < |s| then Record(s[p], s[p + 1..p + 1 + StrLen(s, p + 1)]) else Record(NUL, "")
  }

  function NameAt(s: string, p: nat): string { RecordAt(s, p).name }

  /** Names compared, as offsets. */
  function ByName(s: string, cmp: (string, string) -> int): (nat, nat) -> bool {
    (x: nat, y: nat) => cmp(NameAt(s, x), NameAt(s, y)) < 0
  }

  /** cmp is a total preorder of names. */
  ghost predicate Compares(cmp: (string, string) -> int) {
    && (forall x, y :: cmp(x, y) < 0 ==> !(cmp(y, x) < 0))
    && (forall x, y, z {:trigger cmp(x, z), cmp(z, y)} :: cmp(x, y) < 0 ==> cmp(x, z) < 0 || cmp(z, y) < 0)
  }

  lemma ComparesIsOrder(s: string, cmp: (string, string) -> int)
    requires Compares(cmp)
    ensures Order(ByName(s, cmp))
  {
    var less := ByName(s, cmp);
    forall x, y | less(x, y)
      ensures !less(y, x)
    {
      assert cmp(NameAt(s, x), NameAt(s, y)) < 0;
    }
    forall x, y, z {:trigger less(x, z), less(z, y)} | less(x, y)
      ensures less(x, z) || less(z, y)
    {
      var a, b, c := NameAt(s, x), NameAt(s, y), NameAt(s, z);
      assert cmp(a, b) < 0 ==> cmp(a, c) < 0 || cmp(c, b) < 0;
    }
  }

  lemma {:induction false} PackConcat(a: seq<Record>, b: seq<Record>)
    ensures Pack(a + b) == Pack(a) + Pack(b)
  {
    if a == [] {
      assert a + b == b;
    } else {
      assert (a + b)[1..] == a[1..] + b;
      PackConcat(a[1..], b);
    }
  }

  /** The record in the middle of a blob is found at its offset. */
  lemma ReadsBack(before: string, r: Record, after: string)
    requires Named(r)
    ensures RecordAt(before + Packed(r) + after, |before|) == r
  {
    var s := before + Packed(r) + after;
    var p := |before| + 1;
    assert s[p..p + |r.name|] == r.name && s[p + |r.name|] == NUL;
    StrLenIs(s, p, |r.name|);
  }

  lemma {:induction false} StrLenIs(s: string, p: nat, n: nat)
    requires p + n < |s| && NUL !in s[p..p + n] && s[p + n] == NUL
    ensures StrLen(s, p) == n
    decreases n
  {
    if n > 0 {
      assert s[p] == s[p..p + n][0] && s[p + 1..p + n] == s[p..p + n][1..];
      StrLenIs(s, p + 1, n - 1);
    }
  }

  /** The records that offsets stand for. */
  function RecordsAt(s: string, o: seq<nat>): (rs: seq<Record>)
    ensures |rs| == |o|
  {
    if o == [] then [] else [RecordAt(s, o[0])] + RecordsAt(s, o[1..])
  }

  lemma {:induction false} RecordsAtIndex(s: string, o: seq<nat>, k: nat)
    requires k < |o|
    ensures RecordsAt(s, o)[k] == RecordAt(s, o[k])
  {
    if k > 0 {
      RecordsAtIndex(s, o[1..], k - 1);
    }
  }

  lemma {:induction false} RecordsAtConcat(s: string, a: seq<nat>, b: seq<nat>)
    ensures RecordsAt(s, a + b) == RecordsAt(s, a) + RecordsAt(s, b)
  {
    if a == [] {
      assert a + b == b;
    } else {
      assert (a + b)[1..] == a[1..] + b;
      RecordsAtConcat(s, a[1..], b);
    }
  }

  lemma Cancel<T>(p: multiset<T>, q: multiset<T>, x: T)
    requires p + multiset{x} == q + multiset{x}
    ensures p == q
  {
    assert p == p + multiset{x} - multiset{x} == q;
  }

  /** Taking one offset out takes its record out. */
  lemma WithoutOne(s: string, b: seq<nat>, k: nat)
    requires k < |b|
    ensures var rest := b[..k] + b[k + 1..];
            && multiset(b) == multiset(rest) + multiset{b[k]}
            && multiset(RecordsAt(s, b)) == multiset(RecordsAt(s, rest)) + multiset{RecordAt(s, b[k])}
            && |Pack(RecordsAt(s, b))| == |Pack(RecordsAt(s, rest))| + |Packed(RecordAt(s, b[k]))|
  {
    hide RecordAt;
    var x, y, z := b[..k], [b[k]], b[k + 1..];
    assert b == x + (y + z);
    RecordsAtConcat(s, x, y + z);
    RecordsAtConcat(s, y, z);
    RecordsAtConcat(s, x, z);
    assert y[1..] == [];
    var rx, ry, rz := RecordsAt(s, x), RecordsAt(s, y), RecordsAt(s, z);
    PackConcat(rx, ry + rz);
    PackConcat(ry, rz);
    PackConcat(rx, rz);
    assert ry[1..] == [];
  }

  /** Permuted offsets, permuted records. */
  lemma {:induction false} Permuted(s: string, a: seq<nat>, b: seq<nat>)
    requires multiset(a) == multiset(b)
    ensures multiset(RecordsAt(s, a)) == multiset(RecordsAt(s, b)) && |a| == |b|
    ensures |Pack(RecordsAt(s, a))| == |Pack(RecordsAt(s, b))|
    decreases |a|
  {
    hide RecordAt, RecordsAt, Pack;
    if a == [] {
      assert |multiset(b)| == 0;
      assert b == [];
    } else {
      assert a[0] in multiset(b);
      var k :| 0 <= k < |b| && b[k] == a[0];
      var rest := b[..k] + b[k + 1..];
      WithoutOne(s, a, 0);
      WithoutOne(s, b, k);
      assert a[..0] + a[0 + 1..] == a[1..];
      Cancel(multiset(a[1..]), multiset(rest), a[0]);
      Permuted(s, a[1..], rest);
    }
  }

  // The method

  /** Where the k-th record of rs starts in its blob. */
  function Offset(rs: seq<Record>, k: nat): nat
    requires k <= |rs|
  {
    |Pack(rs[..k])|
  }

  lemma OffsetReads(rs: seq<Record>, k: nat)
    requires k < |rs| && AllNamed(rs)
    ensures Offset(rs, k) < |Pack(rs)| && RecordAt(Pack(rs), Offset(rs, k)) == rs[k]
    ensures Offset(rs, k + 1) == Offset(rs, k) + |Packed(rs[k])|
  {
    PackAround(rs, k);
    PackSnoc(rs, k);
    ReadsBack(Pack(rs[..k]), rs[k], Pack(rs[k + 1..]));
  }

  /** No name comes after one that is greater. */
  ghost predicate SortedByName(rs: seq<Record>, cmp: (string, string) -> int) {
    forall a: nat, b: nat | a < b < |rs| :: !(cmp(rs[b].name, rs[a].name) < 0)
  }

  /** A record lies whole at p. */
  predicate Whole(s: string, p: nat) {
    var r := Packed(RecordAt(s, p));
    p + |r| <= |s| && s[p..p + |r|] == r
  }

  lemma OffsetIsWhole(rs: seq<Record>, k: nat)
    requires k < |rs| && AllNamed(rs)
    ensures Whole(Pack(rs), Offset(rs, k))
  {
    hide RecordAt;
    OffsetReads(rs, k);
    PackAround(rs, k);
    var a, r, b := Pack(rs[..k]), Packed(rs[k]), Pack(rs[k + 1..]);
    assert (a + r + b)[|a|..|a| + |r|] == r;
  }

  /** The blob before, of and after a record. */
  lemma PackAround(rs: seq<Record>, k: nat)
    requires k < |rs|
    ensures Pack(rs) == Pack(rs[..k]) + Packed(rs[k]) + Pack(rs[k + 1..])
  {
    hide Pack, Packed;
    var a, b := rs[..k], rs[k + 1..];
    PackConcat(a, [rs[k]] + b);
    PackCons(rs[k], b);
    assert rs == a + ([rs[k]] + b);
    Regroup(Pack(a), Packed(rs[k]), Pack(b));
  }

  lemma Regroup(a: string, b: string, c: string)
    ensures a + (b + c) == a + b + c
  {
  }

  lemma PackCons(r: Record, b: seq<Record>)
    ensures Pack([r] + b) == Packed(r) + Pack(b)
  {
    assert ([r] + b)[1..] == b;
  }

  predicate AreOffsets(rs: seq<Record>, o: seq<nat>) {
    |o| == |rs| && forall k | 0 <= k < |rs| :: o[k] == Offset(rs, k)
  }

  lemma OffsetsRead(rs: seq<Record>, o: seq<nat>)
    requires AllNamed(rs) && AreOffsets(rs, o)
    ensures RecordsAt(Pack(rs), o) == rs
  {
    hide Offset, RecordAt, Pack, RecordsAt;
    forall k | 0 <= k < |rs|
      ensures RecordsAt(Pack(rs), o)[k] == rs[k]
    {
      OffsetReads(rs, k);
      RecordsAtIndex(Pack(rs), o, k);
    }
  }

  /** Sorted offsets stand for sorted records, the same ones, that fill the same blob. */
  lemma SortedOffsets(rs: seq<Record>, before: seq<nat>, o: seq<nat>, cmp: (string, string) -> int)
    requires AllNamed(rs) && AreOffsets(rs, before) && multiset(o) == multiset(before)
    requires SortedFrom(ByName(Pack(rs), cmp), o, 0)
    ensures var qs := RecordsAt(Pack(rs), o);
            multiset(qs) == multiset(rs) && SortedByName(qs, cmp) && |Pack(qs)| == |Pack(rs)|
    ensures forall k | 0 <= k < |o| :: Whole(Pack(rs), o[k])
  {
    hide Offset, Whole, Pack, RecordsAt, RecordAt;
    var s := Pack(rs);
    var qs := RecordsAt(s, o);
    OffsetsRead(rs, before);
    Permuted(s, o, before);
    forall a: nat, b: nat | a < b < |qs|
      ensures !(cmp(qs[b].name, qs[a].name) < 0)
    {
      RecordsAtIndex(s, o, a);
      RecordsAtIndex(s, o, b);
      assert qs[a].name == NameAt(s, o[a]) && qs[b].name == NameAt(s, o[b]);
      assert !ByName(s, cmp)(o[b], o[a]);
    }
    forall k | 0 <= k < |o|
      ensures Whole(s, o[k])
    {
      assert o[k] in multiset(before);
      var j :| 0 <= j < |before| && before[j] == o[k];
      OffsetIsWhole(rs, j);
    }
  }

  /** dirlist_sort. `room`: whether the arena has space for the scratch arrays; if not, the blob
      stays as it is. */
  method DirlistSort(d: array<char>, n: nat, cmp: (string, string) -> int, room: bool, ghost rs: seq<Record>)
    returns (r: int, ghost qs: seq<Record>)
    requires Compares(cmp) && AllNamed(rs) && n == |rs| && d[..] == Pack(rs)
    modifies d
    ensures d[..] == Pack(qs) && multiset(qs) == multiset(rs)
    ensures r == if n < 2 || room then 0 else -1
    ensures if r == 0 then SortedByName(qs, cmp) else qs == rs
  {
    hide Pack, RecordsAt, RecordAt, Compares, Order, SortedFrom, ByName, AllNamed;
    if n < 2 {
      return 0, rs;
    }
    if !room {
      return -1, rs;
    }
    var o := Offsets(d, n, rs);
    var blob := d[..];
    ghost var before := o[..];
    ComparesIsOrder(blob, cmp);
    Sort(o, ByName(blob, cmp));
    SortedOffsets(rs, before, o[..], cmp);
    qs := RecordsAt(blob, o[..]);
    Repack(d, o, qs);
    r := 0;
  }

  /** The walk over the blob that notes where each record begins. */
  method Offsets(d: array<char>, n: nat, ghost rs: seq<Record>) returns (o: array<nat>)
    requires AllNamed(rs) && n == |rs| && d[..] == Pack(rs)
    ensures fresh(o) && AreOffsets(rs, o[..])
  {
    hide Pack, Offset;
    o := new nat[n];
    NoOffset(rs);
    var p: nat, i: nat := 0, 0;
    while i < n
      invariant i <= n && p == Offset(rs, i) && forall k | 0 <= k < i :: o[k] == Offset(rs, k)
      invariant d[..] == Pack(rs)
    {
      OffsetReads(rs, i);
      o[i] := p;
      p := p + 2 + StrLen(d[..], p + 1);
      i := i + 1;
    }
  }

  lemma NoOffset(rs: seq<Record>)
    ensures Offset(rs, 0) == 0
  {
  }

  /** The copy of the records in their new order, and the copy back. */
  method Repack(d: array<char>, o: array<nat>, ghost qs: seq<Record>)
    requires qs == RecordsAt(d[..], o[..]) && |Pack(qs)| == d.Length
    requires forall k | 0 <= k < o.Length :: Whole(d[..], o[k])
    modifies d
    ensures d[..] == Pack(qs)
  {
    hide Pack, RecordsAt;
    var s := d[..];
    var copy: string, i: nat := [], 0;
    PackEnds();
    assert qs[..0] == [];
    while i < o.Length
      invariant i <= o.Length && copy == Pack(qs[..i]) && d[..] == s
      modifies {}
    {
      RecordsAtIndex(s, o[..], i);
      assert Whole(s, o[i]);
      var l := 2 + StrLen(s, o[i] + 1);
      copy := copy + s[o[i]..o[i] + l];
      PackSnoc(qs, i);
      i := i + 1;
    }
    assert qs[..i] == qs;
    i := 0;
    while i < d.Length
      invariant i <= d.Length == |copy| && d[..i] == copy[..i]
    {
      d[i] := copy[i];
      i := i + 1;
    }
  }

  lemma PackEnds()
    ensures Pack([]) == []
  {
  }

  lemma PackSnoc(qs: seq<Record>, i: nat)
    requires i < |qs|
    ensures Pack(qs[..i + 1]) == Pack(qs[..i]) + Packed(qs[i])
  {
    assert qs[..i + 1] == qs[..i] + [qs[i]];
    PackConcat(qs[..i], [qs[i]]);
    assert [qs[i]][1..] == [];
  }
}
