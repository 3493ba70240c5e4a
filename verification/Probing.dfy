/** Open addressing over a sequence of slots: what a probe finds, and what an update does to it. */
module Probing {
  import opened Wrappers

  datatype Slot<V> = Empty | Tombstone | Live(key: string, val: V)

  /** A hash function on 64 bits. */
  type Hash = string -> nat

  const WORD: nat := 0x1_0000_0000_0000_0000

  function Pow2(e: nat): (p: nat)
    ensures p > 0
  {
    if e == 0 then 1 else 2 * Pow2(e - 1)
  }

  /** A bucket count: 16 doubled some times. */
  ghost predicate IsCapacity(n: nat) {
    exists e :: 4 <= e && n == Pow2(e)
  }

  lemma {:induction false} Pow2Add(a: nat, b: nat)
    ensures Pow2(a + b) == Pow2(a) * Pow2(b)
    decreases a
  {
    if a > 0 {
      Pow2Add(a - 1, b);
    }
  }

  lemma {:induction false} Pow2Order(a: nat, b: nat)
    ensures a < b ==> 2 * Pow2(a) <= Pow2(b)
    ensures a == b ==> Pow2(a) == Pow2(b)
    decreases b
  {
    if a < b {
      Pow2Order(a, b - 1);
    }
  }

  /** The slot the ith step of a probe looks at: 64-bit addition, then the remainder. */
  function Step(h: nat, i: nat, n: nat): (t: nat)
    requires n > 0
    ensures t < n
  {
    (h + i) % WORD % n
  }

  lemma {:induction false} WordIs(e: nat)
    requires e <= 64
    ensures Pow2(64) == Pow2(e) * Pow2(64 - e)
  {
    Pow2Add(e, 64 - e);
  }

  lemma ModModMul(x: nat, n: nat, q: nat)
    requires n > 0 && q > 0
    ensures x % (n * q) % n == x % n
  {
    var m := n * q;
    var d, r := x / m, x % m;
    var e, f := r / n, r % n;
    assert x == m * d + r;
    assert r == n * e + f;
    Assoc(n, q, d);
    Distribute(n, q * d, e);
    assert x == n * (q * d + e) + f;
    assert q * d >= 0 by { MulPositive(q, d); }
    ModUnique(x, n, q * d + e, f);
  }

  lemma MulPositive(a: nat, b: nat)
    ensures a * b >= 0
  {
  }

  lemma Assoc(a: nat, b: nat, c: nat)
    ensures a * b * c == a * (b * c)
  {
  }

  lemma Distribute(a: nat, b: nat, c: nat)
    ensures a * (b + c) == a * b + a * c
  {
  }

  lemma ModUnique(x: nat, n: nat, d: nat, r: nat)
    requires n > 0 && x == n * d + r && r < n
    ensures x % n == r && x / n == d
  {
    var d', r' := x / n, x % n;
    assert n * d' + r' == x;
    assert (d - d') * n == n * d - n * d';
    MulBound(n, d - d');
  }

  lemma MulBound(n: int, k: int)
    requires n > 0
    ensures (k >= 1 ==> k * n >= n) && (k <= -1 ==> k * n <= -n)
  {
  }

  /** With a bucket count that divides 2^64 the wrap-around of the addition does not matter. */
  lemma StepIs(h: nat, i: nat, n: nat)
    requires IsCapacity(n) && n <= WORD
    ensures Step(h, i, n) == (h + i) % n
  {
    var e :| 4 <= e && n == Pow2(e);
    Word();
    Pow2Order(64, e);
    WordIs(e);
    ModModMul(h + i, n, Pow2(64 - e));
  }

  lemma Word()
    ensures Pow2(64) == WORD
  {
    assert Pow2(8) == 256;
    Pow2Add(8, 8);
    Pow2Add(16, 16);
    Pow2Add(32, 32);
  }

  /** The ith slot of the probe that starts at b. */
  function At(b: nat, i: nat, n: nat): (t: nat)
    requires b < n && i < n
    ensures t < n
  {
    if b + i < n then b + i else b + i - n
  }

  /** How far slot t is along the probe that starts at b. */
  function Dist(b: nat, t: nat, n: nat): (i: nat)
    requires b < n && t < n
    ensures i < n && At(b, i, n) == t
    ensures forall j | 0 <= j < n && At(b, j, n) == t :: j == i
  {
    if t >= b then t - b else t + n - b
  }

  lemma StepAt(h: nat, i: nat, n: nat)
    requires IsCapacity(n) && 0 < n <= WORD && i < n
    ensures Step(h, i, n) == At(h % n, i, n)
  {
    hide *;
    StepIs(h, i, n);
    DivMod(h, n);
    ModShift(n, h / n, h % n, i);
  }

  lemma DivMod(h: nat, n: nat)
    requires n > 0
    ensures n * (h / n) + h % n == h
  {
  }

  lemma ModShift(n: nat, d: nat, b: nat, i: nat)
    requires b < n && i < n
    ensures (n * d + b + i) % n == At(b, i, n)
  {
    Distribute(n, d, 1);
    var x := n * d + b + i;
    if b + i < n {
      ModUnique(x, n, d, b + i);
    } else {
      assert x == n * (d + 1) + (b + i - n);
      ModUnique(x, n, d + 1, b + i - n);
    }
  }

  function Home(hash: Hash, key: string, n: nat): (b: nat)
    requires n > 0
    ensures b < n
  {
    hash(key) % n
  }

  predicate Match<V>(x: Slot<V>, key: string) {
    x.Live? && x.key == key
  }

  /** Where the key is found from the ith step of its probe on. */
  function Find<V>(s: seq<Slot<V>>, b: nat, key: string, i: nat): (r: Option<nat>)
    requires b < |s| && i <= |s|
    ensures r.Some? ==> r.value < |s| && Match(s[r.value], key)
    decreases |s| - i
  {
    if i == |s| then None
    else
      var t := At(b, i, |s|);
      if Match(s[t], key) then Some(t)
      else if s[t].Empty? then None
      else Find(s, b, key, i + 1)
  }

  /** Where a put of the key goes: a slot that has it, or the first one that is free. */
  function Place<V>(s: seq<Slot<V>>, b: nat, key: string, i: nat): (r: Option<nat>)
    requires b < |s| && i <= |s|
    ensures r.Some? ==> r.value < |s| && (Match(s[r.value], key) || !s[r.value].Live?)
    decreases |s| - i
  {
    if i == |s| then None
    else
      var t := At(b, i, |s|);
      if Match(s[t], key) || !s[t].Live? then Some(t)
      else Place(s, b, key, i + 1)
  }

  /** No empty slot separates slot t from the start of the probe. */
  ghost predicate NoGap<V>(s: seq<Slot<V>>, b: nat, t: nat)
    requires b < |s| && t < |s|
  {
    forall i | 0 <= i < Dist(b, t, |s|) :: !s[At(b, i, |s|)].Empty?
  }

  ghost predicate Reachable<V>(s: seq<Slot<V>>, hash: Hash) {
    forall t | 0 <= t < |s| && s[t].Live? :: NoGap(s, Home(hash, s[t].key, |s|), t)
  }

  /** The live slots are the entries of m, each key once. */
  ghost predicate Represents<V>(s: seq<Slot<V>>, m: map<string, V>) {
    && (forall t | 0 <= t < |s| && s[t].Live? :: s[t].key in m && m[s[t].key] == s[t].val)
    && (forall k | k in m :: exists t :: 0 <= t < |s| && Match(s[t], k))
    && (forall t, u | 0 <= t < u < |s| && s[t].Live? && s[u].Live? :: s[t].key != s[u].key)
  }

  /** No tombstone comes before the key on its probe. */
  ghost predicate Clean<V>(s: seq<Slot<V>>, hash: Hash, key: string) {
    forall t | 0 <= t < |s| && Match(s[t], key) ::
      forall i | 0 <= i < Dist(Home(hash, key, |s|), t, |s|) :: !s[At(Home(hash, key, |s|), i, |s|)].Tombstone?
  }

  function Count<V>(s: seq<Slot<V>>): nat {
    if s == [] then 0 else (if s[0].Empty? then 0 else 1) + Count(s[1..])
  }

  function CountLive<V>(s: seq<Slot<V>>): nat {
    if s == [] then 0 else (if s[0].Live? then 1 else 0) + CountLive(s[1..])
  }

  lemma {:induction false} CountUpdate<V>(s: seq<Slot<V>>, t: nat, x: Slot<V>)
    requires t < |s| && !x.Empty?
    ensures Count(s[t := x]) == Count(s) + (if s[t].Empty? then 1 else 0)
  {
    if t > 0 {
      CountUpdate(s[1..], t - 1, x);
      assert s[t := x][1..] == s[1..][t - 1 := x];
    } else {
      assert s[0 := x][1..] == s[1..];
    }
  }

  lemma {:induction false} CountFull<V>(s: seq<Slot<V>>)
    ensures CountLive(s) <= Count(s) <= |s|
    ensures Count(s) == |s| <==> forall t | 0 <= t < |s| :: !s[t].Empty?
  {
    if s != [] {
      CountFull(s[1..]);
      assert forall t | 0 <= t < |s[1..]| :: s[1..][t] == s[t + 1];
      assert forall t | 0 < t < |s| :: s[t] == s[1..][t - 1];
    }
  }

  /** A lookup finds exactly the entries of the map. */
  lemma {:induction false} FindMeans<V>(s: seq<Slot<V>>, hash: Hash, m: map<string, V>, key: string, i: nat)
    requires |s| > 0 && i <= |s| && Represents(s, m) && Reachable(s, hash)
    requires forall j | 0 <= j < i :: !Match(s[At(Home(hash, key, |s|), j, |s|)], key)
    ensures var r := Find(s, Home(hash, key, |s|), key, i);
            if key in m then r.Some? && s[r.value] == Live(key, m[key]) else r.None?
    decreases |s| - i
  {
    var b := Home(hash, key, |s|);
    if key in m {
      var t :| 0 <= t < |s| && Match(s[t], key);
      var d := Dist(b, t, |s|);
      assert d >= i;
      assert NoGap(s, b, t);
      hide Reachable, NoGap, Represents;
      if i < d {
        FindMeans(s, hash, m, key, i + 1);
      }
    } else if i < |s| {
      if !s[At(b, i, |s|)].Empty? {
        FindMeans(s, hash, m, key, i + 1);
      }
    }
  }

  /** What a put passes over before the place it takes, and when there is no place. */
  lemma {:induction false} PlaceMeans<V>(s: seq<Slot<V>>, b: nat, key: string, i: nat)
    requires b < |s| && i <= |s|
    requires forall j | 0 <= j < i :: s[At(b, j, |s|)].Live? && !Match(s[At(b, j, |s|)], key)
    ensures match Place(s, b, key, i)
            case None => forall t | 0 <= t < |s| :: s[t].Live? && !Match(s[t], key)
            case Some(t) => forall j | 0 <= j < Dist(b, t, |s|) ::
              s[At(b, j, |s|)].Live? && !Match(s[At(b, j, |s|)], key)
    decreases |s| - i
  {
    if i == |s| {
      forall t | 0 <= t < |s| ensures s[t].Live? && !Match(s[t], key) {
        assert t == At(b, Dist(b, t, |s|), |s|);
      }
    } else {
      var t := At(b, i, |s|);
      if Match(s[t], key) || !s[t].Live? {
        assert Dist(b, t, |s|) == i;
      } else {
        PlaceMeans(s, b, key, i + 1);
      }
    }
  }

  /** A slot on nobody's way: filling it keeps every live key reachable. */
  lemma FillReachable<V>(s: seq<Slot<V>>, hash: Hash, t: nat, x: Slot<V>)
    requires t < |s| && Reachable(s, hash) && !x.Empty?
    requires x.Live? ==> NoGap(s, Home(hash, x.key, |s|), t)
    ensures Reachable(s[t := x], hash)
  {
    var s' := s[t := x];
    forall u | 0 <= u < |s| && s'[u].Live? ensures NoGap(s', Home(hash, s'[u].key, |s|), u) {
      assert NoGap(s, Home(hash, s'[u].key, |s|), u);
    }
  }

  /** Where put stores the key. Everything stays reachable, and the map is updated if and only if
      the key was absent or had no tombstone before it. */
  lemma PutMeans<V>(s: seq<Slot<V>>, hash: Hash, m: map<string, V>, key: string, v: V, t: nat)
    requires |s| > 0 && Represents(s, m) && Reachable(s, hash)
    requires Place(s, Home(hash, key, |s|), key, 0) == Some(t)
    ensures Reachable(s[t := Live(key, v)], hash)
    ensures key !in m || Clean(s, hash, key) ==> Represents(s[t := Live(key, v)], m[key := v])
    ensures key in m && !Clean(s, hash, key) ==>
              !s[t].Live? && exists u :: 0 <= u < |s| && u != t && s[u] == Live(key, m[key])
  {
    var b := Home(hash, key, |s|);
    PlaceMeans(s, b, key, 0);
    assert NoGap(s, b, t);
    FillReachable(s, hash, t, Live(key, v));
    if key in m {
      var u :| 0 <= u < |s| && Match(s[u], key);
      if u != t {
        assert !s[t].Live?;
        assert NoGap(s, b, u);
        var d, e := Dist(b, t, |s|), Dist(b, u, |s|);
        assert d != e;
        assert e >= d;
        assert s[At(b, d, |s|)].Tombstone?;
        assert !Clean(s, hash, key);
        assert s[u] == Live(key, m[key]);
      } else {
        assert Clean(s, hash, key);
        PutOver(s, m, key, v, t);
      }
    } else {
      PutOver(s, m, key, v, t);
    }
  }

  lemma PutOver<V>(s: seq<Slot<V>>, m: map<string, V>, key: string, v: V, t: nat)
    requires t < |s| && Represents(s, m) && (Match(s[t], key) || (key !in m && !s[t].Live?))
    ensures Represents(s[t := Live(key, v)], m[key := v])
  {
    var s', m' := s[t := Live(key, v)], m[key := v];
    forall k | k in m' ensures exists u :: 0 <= u < |s'| && Match(s'[u], k) {
      if k == key {
        assert Match(s'[t], k);
      } else {
        var u :| 0 <= u < |s| && Match(s[u], k);
        assert Match(s'[u], k);
      }
    }
  }

  lemma DeleteMeans<V>(s: seq<Slot<V>>, hash: Hash, m: map<string, V>, t: nat)
    requires t < |s| && s[t].Live? && Represents(s, m) && Reachable(s, hash)
    ensures Reachable(s[t := Tombstone], hash) && Represents(s[t := Tombstone], m - {s[t].key})
  {
    var s', m' := s[t := Tombstone], m - {s[t].key};
    FillReachable(s, hash, t, Tombstone);
    forall k | k in m' ensures exists u :: 0 <= u < |s'| && Match(s'[u], k) {
      var u :| 0 <= u < |s| && Match(s[u], k);
      assert Match(s'[u], k);
    }
  }

  /** A key behind a tombstone is put a second time: deleting it afterwards brings the old value
      back, so the map is not what was put and deleted. */
  lemma DeletedComesBack<V>(s: seq<Slot<V>>, hash: Hash, m: map<string, V>, key: string, v: V, t: nat)
    requires |s| > 0 && Represents(s, m) && Reachable(s, hash) && key in m && !Clean(s, hash, key)
    requires Place(s, Home(hash, key, |s|), key, 0) == Some(t)
    ensures var b := Home(hash, key, |s|);
            var put := s[t := Live(key, v)];
            && Find(put, b, key, 0) == Some(t)
            && var r := Find(put[t := Tombstone], b, key, 0);
               r.Some? && put[t := Tombstone][r.value] == Live(key, m[key])
  {
    var b := Home(hash, key, |s|);
    PutMeans(s, hash, m, key, v, t);
    PlaceMeans(s, b, key, 0);
    var put := s[t := Live(key, v)];
    FindFirst(put, b, key, 0, t);
    var gone := put[t := Tombstone];
    BuryRepresents(s, m, t, gone);
    FillReachable(put, hash, t, Tombstone);
    FindMeans(gone, hash, m, key, 0);
  }

  /** Such a table comes about: of two keys with the same home one is put, then the other, and the
      first is deleted. Putting the second again takes the first one's slot. */
  lemma SecondCopy<V>(hash: Hash, a: string, b: string, x: V, y: V, z: V)
    requires a != b && Home(hash, a, 16) == Home(hash, b, 16)
    ensures var h := Home(hash, a, 16);
            var none: seq<Slot<V>> := seq(16, _ => Empty);
            var one := none[h := Live(a, x)];
            var two := one[At(h, 1, 16) := Live(b, y)];
            var left := two[h := Tombstone];
            && Place(none, h, a, 0) == Some(h) && Place(one, h, b, 0) == Some(At(h, 1, 16)) && Find(two, h, a, 0) == Some(h)
            && Represents(left, map[b := y]) && Reachable(left, hash) && !Clean(left, hash, b)
            && Place(left, h, b, 0) == Some(h) && !Represents(left[h := Live(b, z)], map[b := z])
  {
    var h := Home(hash, a, 16);
    var u := At(h, 1, 16);
    var none: seq<Slot<V>> := seq(16, _ => Empty);
    var one := none[h := Live(a, x)];
    var two := one[u := Live(b, y)];
    var left := two[h := Tombstone];
    assert Place(none, h, a, 0) == Some(h);
    assert Place(one, h, b, 0) == Place(one, h, b, 1) == Some(u);
    assert Match(left[u], b) && Dist(h, u, 16) == 1 && left[At(h, 0, 16)].Tombstone?;
    assert Live(b, z) == left[h := Live(b, z)][h] && left[h := Live(b, z)][u] == Live(b, y);
  }

  lemma BuryRepresents<V>(s: seq<Slot<V>>, m: map<string, V>, t: nat, s': seq<Slot<V>>)
    requires t < |s| && !s[t].Live? && Represents(s, m) && s' == s[t := Tombstone]
    ensures Represents(s', m)
  {
    forall k | k in m ensures exists w :: 0 <= w < |s'| && Match(s'[w], k) {
      var w :| 0 <= w < |s| && Match(s[w], k);
      assert Match(s'[w], k);
    }
  }

  lemma {:induction false} FindFirst<V>(s: seq<Slot<V>>, b: nat, key: string, i: nat, t: nat)
    requires b < |s| && t < |s| && i <= Dist(b, t, |s|) && Match(s[t], key)
    requires forall j | i <= j < Dist(b, t, |s|) :: s[At(b, j, |s|)].Live? && !Match(s[At(b, j, |s|)], key)
    ensures Find(s, b, key, i) == Some(t)
    decreases |s| - i
  {
    if i < Dist(b, t, |s|) {
      FindFirst(s, b, key, i + 1, t);
    }
  }

  lemma CapacityIsPositive(n: nat)
    requires IsCapacity(n)
    ensures n >= 16
  {
    var e :| 4 <= e && n == Pow2(e);
    Pow2Order(4, e);
    assert Pow2(4) == 16;
  }

  lemma CapacityDoubles(n: nat)
    requires IsCapacity(n)
    ensures IsCapacity(2 * n)
  {
    var e :| 4 <= e && n == Pow2(e);
    assert Pow2(e + 1) == 2 * n;
  }

  lemma FirstCapacity()
    ensures IsCapacity(16)
  {
    assert Pow2(4) == 16;
  }

  lemma DivLess(x: nat, n: nat, k: nat)
    requires n > 0
    ensures x / n < k <==> x < n * k
  {
    DivMod(x, n);
    MulBound(n, k - x / n);
    Distribute(n, x / n, if k > x / n then k - x / n else 0);
    Distribute(n, k, if x / n > k then x / n - k else 0);
  }

  lemma {:induction false} CountEmpty<V>(s: seq<Slot<V>>)
    requires forall t | 0 <= t < |s| :: s[t].Empty?
    ensures Count(s) == 0 && CountLive(s) == 0
  {
    if s != [] {
      CountEmpty(s[1..]);
    }
  }

  lemma {:induction false} CountSnoc<V>(s: seq<Slot<V>>, x: Slot<V>)
    ensures CountLive(s + [x]) == CountLive(s) + if x.Live? then 1 else 0
  {
    if s == [] {
      assert s + [x] == [x];
    } else {
      CountSnoc(s[1..], x);
      assert (s + [x])[1..] == s[1..] + [x];
    }
  }

  lemma {:induction false} CountPrefix<V>(s: seq<Slot<V>>, i: nat)
    requires i <= |s|
    ensures CountLive(s[..i]) <= CountLive(s)
    decreases |s| - i
  {
    if i < |s| {
      assert s[..i + 1] == s[..i] + [s[i]];
      CountSnoc(s[..i], s[i]);
      CountPrefix(s, i + 1);
    } else {
      assert s[..i] == s;
    }
  }
}
