/** The hashmap: open addressing with tombstones, growing at 70% load. */
module HashMaps {
  import opened Wrappers
  import opened Probing

  const HASHMAP_INIT_SIZE := 16
  const HASHMAP_HIGH_WATERMARK := 70
  const HASHMAP_LOW_WATERMARK := 50

  /** More buckets than any address space holds; used * 100 cannot overflow below it. */
  const MAX_LIMIT: nat := 0x100_0000_0000_0000

  /** The bucket count a rehash asks for: doubled until the load is below the low watermark. */
  function NewCapacity(nkeys: nat, cap: nat): (r: nat)
    requires cap > 0
    decreases 2 * nkeys + 1 - cap
  {
    DivLess(nkeys * 100, cap, HASHMAP_LOW_WATERMARK);
    if nkeys * 100 / cap >= HASHMAP_LOW_WATERMARK then NewCapacity(nkeys, cap * 2) else cap
  }

  lemma {:induction false} NewCapacityIs(nkeys: nat, cap: nat)
    requires IsCapacity(cap) && cap > 0
    ensures var r := NewCapacity(nkeys, cap);
            IsCapacity(r) && r >= cap && nkeys * 100 / r < HASHMAP_LOW_WATERMARK && 2 * nkeys < r
    decreases 2 * nkeys + 1 - cap
  {
    DivLess(nkeys * 100, cap, HASHMAP_LOW_WATERMARK);
    if nkeys * 100 / cap >= HASHMAP_LOW_WATERMARK {
      CapacityDoubles(cap);
      NewCapacityIs(nkeys, cap * 2);
    }
  }

  class HashMap<V(0)> {
    const hash: Hash
    const limit: nat // the largest bucket count there is memory for
    var buckets: array?<Slot<V>>
    var used: nat
    ghost var m: map<string, V>

    ghost function Slots(): seq<Slot<V>>
      reads this, buckets
    {
      if buckets == null then [] else buckets[..]
    }

    /** What holds even when a key has been put behind a tombstone. */
    ghost predicate Sound()
      reads this, buckets
    {
      && limit <= MAX_LIMIT
      && (buckets != null ==>
            IsCapacity(buckets.Length) && buckets.Length <= limit && Reachable(buckets[..], hash))
      && used == Count(Slots())
    }

    ghost predicate Valid()
      reads this, buckets
    {
      Sound() && Represents(Slots(), m)
    }

    /** 70% of the buckets or more have been used. */
    predicate Loaded()
      reads this, buckets
      ensures Loaded() <==> buckets != null && buckets.Length > 0 && 10 * used >= 7 * buckets.Length
    {
      assert buckets != null && buckets.Length > 0 ==>
        (used * 100 / buckets.Length >= HASHMAP_HIGH_WATERMARK <==> 10 * used >= 7 * buckets.Length) by {
        if buckets != null && buckets.Length > 0 { DivLess(used * 100, buckets.Length, HASHMAP_HIGH_WATERMARK); }
      }
      buckets != null && buckets.Length > 0 && used * 100 / buckets.Length >= HASHMAP_HIGH_WATERMARK
    }

    /** hashmap_init. */
    constructor (h: Hash, l: nat)
      requires l <= MAX_LIMIT
      ensures Valid() && m == map[] && buckets == null && used == 0 && hash == h && limit == l
    {
      hash, limit, buckets, used, m := h, l, null, 0, map[];
    }

    /** hashmap_get_entry: the slot of the key. */
    method GetEntry(key: string) returns (r: Option<nat>)
      requires Valid()
      ensures if key in m then r.Some? && r.value < |Slots()| && Slots()[r.value] == Live(key, m[key]) else r.None?
    {
      if buckets == null {
        return None;
      }
      hide Count, Reachable, Represents;
      CapacityIsPositive(buckets.Length);
      ghost var b := Home(hash, key, buckets.Length);
      FindMeans(buckets[..], hash, m, key, 0);
      var h := hash(key);
      var i := 0;
      while i < buckets.Length
        invariant 0 <= i <= buckets.Length
        invariant Find(buckets[..], b, key, 0) == Find(buckets[..], b, key, i)
      {
        StepAt(h, i, buckets.Length);
        var t := Step(h, i, buckets.Length);
        if buckets[t].Live? && buckets[t].key == key {
          return Some(t);
        }
        if buckets[t].Empty? {
          return None;
        }
        i := i + 1;
      }
      return None;
    }

    /** hashmap_get2. */
    method Get(key: string) returns (r: Option<V>)
      requires Valid()
      ensures r == if key in m then Some(m[key]) else None
    {
      var t := GetEntry(key);
      return if t.Some? then Some(buckets[t.value].val) else None;
    }

    /** hashmap_delete2. */
    method Delete(key: string)
      requires Valid()
      modifies this`m, buckets
      ensures Valid() && m == old(m) - {key}
    {
      hide Count, Reachable, Represents;
      var t := GetEntry(key);
      if t.Some? {
        DeleteMeans(buckets[..], hash, m, t.value);
        CountUpdate(buckets[..], t.value, Tombstone);
        ghost var s := buckets[..];
        buckets[t.value] := Tombstone;
        assert buckets[..] == s[t.value := Tombstone];
      } else {
        assert m - {key} == m;
      }
      m := m - {key};
    }

    /** The probe of get_or_insert_entry: the first slot that has the key or is free. */
    method Probe(key: string) returns (u: Option<nat>)
      requires Sound() && buckets != null
      ensures buckets.Length > 0 && u == Place(buckets[..], Home(hash, key, buckets.Length), key, 0)
    {
      CapacityIsPositive(buckets.Length);
      ghost var b := Home(hash, key, buckets.Length);
      var h := hash(key);
      var i := 0;
      while i < buckets.Length
        invariant 0 <= i <= buckets.Length
        invariant Place(buckets[..], b, key, 0) == Place(buckets[..], b, key, i)
      {
        StepAt(h, i, buckets.Length);
        var t := Step(h, i, buckets.Length);
        if (buckets[t].Live? && buckets[t].key == key) || buckets[t].Tombstone? || buckets[t].Empty? {
          return Some(t);
        }
        i := i + 1;
      }
      return None;
    }

    /** Storing the key and the value where the probe ended. */
    method Store(key: string, v: V) returns (ok: bool, ghost t: nat)
      requires Sound() && buckets != null
      modifies this`used, buckets
      ensures Sound() && |Slots()| == old(|Slots()|) > 0
      ensures var s := old(Slots());
              match Place(s, Home(hash, key, |s|), key, 0)
              case Some(u) => ok && t == u && Slots() == s[u := Live(key, v)]
                              && used == old(used) + (if s[u].Empty? then 1 else 0)
              case None => !ok && Slots() == s && used == old(used)
    {
      hide Place, Step, At, Count;
      var u := Probe(key);
      ghost var s := buckets[..];
      if u.None? {
        return false, 0;
      }
      PlaceFills(s, hash, key, v, u.value);
      if buckets[u.value].Empty? {
        used := used + 1;
      }
      buckets[u.value] := Live(key, v);
      assert buckets[..] == s[u.value := Live(key, v)];
      return true, u.value;
    }

    /** A rehash for the live keys there are finds the memory it asks for. */
    ghost predicate Fits()
      requires buckets != null && buckets.Length > 0
      reads this, buckets
    {
      NewCapacity(CountLive(buckets[..]), buckets.Length) <= limit
    }

    /** hashmap_put2. Out of memory the call does nothing (ok is false). Otherwise the map is updated;
        the representation stays valid if and only if the key was absent, or nothing deleted lies
        before it on its probe, or the table has just been rehashed. */
    method Put(key: string, v: V) returns (ok: bool, ghost t: nat)
      requires Valid()
      modifies this`buckets, this`used, this`m, buckets
      decreases if Loaded() then 2 else 0, 1
      ensures Sound()
      ensures m == if ok then old(m)[key := v] else old(m)
      ensures ok ==> (Valid() <==> key !in old(m) || Clean(old(Slots()), hash, key) || (old(Loaded()) && old(Fits())))
      ensures !ok ==> Valid()
      ensures limit >= HASHMAP_INIT_SIZE && (old(Loaded()) ==> old(Fits())) ==> ok && used < |Slots()|
      ensures old(buckets) != null && !old(Loaded()) ==>
                && buckets == old(buckets)
                && (ok ==> t < |Slots()| && Slots() == old(Slots())[t := Live(key, v)]
                           && (Match(old(Slots())[t], key) || !old(Slots())[t].Live?)
                           && used == old(used) + (if old(Slots())[t].Empty? then 1 else 0))
      ensures buckets == old(buckets) || fresh(buckets)
    {
      hide Place, Clean, Represents, Reachable, IsCapacity, Count, CountLive, NewCapacity;
      if buckets == null {
        NoneLive(m);
      }
      var room := MakeRoom();
      if !room {
        return false, 0;
      }
      ghost var s, had := Slots(), m;
      assert old(buckets) == null || (old(Loaded()) && old(Fits())) ==> Clean(s, hash, key) by { CleanWithout(s, hash, key); }
      ok, t := Store(key, v);
      if ok {
        PutChecked(s, hash, had, key, v, t);
        m := m[key := v];
      } else {
        NoPlace(s, hash, key, used);
      }
    }

    /** The start of get_or_insert_entry: the first table, or a rehash at 70% load. */
    method MakeRoom() returns (ok: bool)
      requires Valid()
      modifies this`buckets, this`used
      decreases if Loaded() then 2 else 0, 0
      ensures Valid() && ok == (old(buckets) != null || HASHMAP_INIT_SIZE <= limit)
      ensures if ok then buckets != null && buckets.Length >= 16 else buckets == old(buckets) && used == old(used)
      ensures if ok && (old(buckets) == null || (old(Loaded()) && old(Fits()))) then
                && fresh(buckets) && (forall t | 0 <= t < |Slots()| :: !Slots()[t].Tombstone?)
              else
                buckets == old(buckets) && used == old(used)
      ensures ok && (old(Loaded()) ==> old(Fits())) ==> used + 1 < buckets.Length
    {
      hide Place, Clean, Represents, Reachable, Count, CountLive, NewCapacity, IsCapacity;
      ok := true;
      if buckets == null {
        if HASHMAP_INIT_SIZE > limit {
          return false;
        }
        FirstTable();
      } else {
        CapacityIsPositive(buckets.Length);
        RoomLeft(used, buckets.Length);
        if used * 100 / buckets.Length >= HASHMAP_HIGH_WATERMARK {
          var done := Rehash();
          CapacityIsPositive(buckets.Length);
          RoomLeft(used, buckets.Length);
        }
      }
    }

    method FirstTable()
      requires Valid() && buckets == null && HASHMAP_INIT_SIZE <= limit
      modifies this`buckets
      ensures Valid() && buckets != null && fresh(buckets) && buckets.Length == HASHMAP_INIT_SIZE && used == 0
      ensures forall t | 0 <= t < |Slots()| :: Slots()[t].Empty?
    {
      FirstCapacity();
      NoneLive(m);
      buckets := new Slot<V>[HASHMAP_INIT_SIZE](_ => Empty);
      FreshTable(buckets[..], hash);
    }

    /** hashmap_rehash: tombstones go, and the table grows to less than 50% load; or nothing happens
        if there is no memory. The puts into the new table never rehash. */
    method Rehash() returns (done: bool)
      requires Valid() && buckets != null && buckets.Length > 0
      modifies this`buckets, this`used
      decreases 1, 1
      ensures Valid() && buckets != null && buckets.Length > 0
      ensures done <==> old(Fits())
      ensures !done ==> buckets == old(buckets) && used == old(used)
      ensures done ==> fresh(buckets)
                       && (forall t | 0 <= t < |Slots()| :: !Slots()[t].Tombstone?)
                       && used * 100 / buckets.Length < HASHMAP_LOW_WATERMARK
                       && used == old(CountLive(Slots()))
    {
      hide Place, Clean, Reachable, Count, CountLive, NewCapacity, IsCapacity, Represents;
      var nkeys := CountKeys();
      var cap := buckets.Length;
      NewCapacityIs(nkeys, cap);
      while nkeys * 100 / cap >= HASHMAP_LOW_WATERMARK
        modifies {}
        invariant cap > 0 && NewCapacity(nkeys, cap) == NewCapacity(nkeys, buckets.Length)
        decreases 2 * nkeys + 1 - cap
      {
        GrowOnce(nkeys, cap);
        cap := cap * 2;
      }
      NewCapacityStops(nkeys, cap);
      if cap > limit {
        return false;
      }
      var map2 := new HashMap<V>(hash, limit);
      map2.buckets := new Slot<V>[cap](_ => Empty);
      FreshTable(map2.buckets[..], hash);
      CapacityIsPositive(cap);
      MoveTo(map2, nkeys);
      buckets, used := map2.buckets, map2.used;
      return true;
    }

    /** The reinsertion loop of hashmap_rehash. */
    method MoveTo(map2: HashMap<V>, nkeys: nat)
      requires Valid() && buckets != null && nkeys == CountLive(buckets[..])
      requires map2 != this && map2.Valid() && map2.hash == hash && map2.m == map[] && map2.used == 0
      requires map2.buckets != null && map2.buckets != buckets && map2.buckets.Length <= map2.limit == limit
      requires map2.buckets.Length >= HASHMAP_INIT_SIZE && nkeys * 100 / map2.buckets.Length < HASHMAP_LOW_WATERMARK
      requires forall t | 0 <= t < |map2.Slots()| :: !map2.Slots()[t].Tombstone?
      modifies map2, map2.buckets
      decreases 1, 0
      ensures map2.Valid() && map2.buckets == old(map2.buckets) && map2.m == m && map2.used == nkeys
      ensures forall t | 0 <= t < |map2.Slots()| :: !map2.Slots()[t].Tombstone?
    {
      hide Place, Clean, Reachable, Count, CountLive, IsCapacity, Represents;
      ghost var s, b2 := buckets[..], map2.buckets;
      var i := 0;
      assert CountLive(s[..0]) == 0 by { CountEmpty(s[..0]); }
      while i < buckets.Length
        invariant 0 <= i <= |s| && buckets[..] == s
        invariant map2.Valid() && map2.buckets == b2
        invariant forall t | 0 <= t < |map2.Slots()| :: !map2.Slots()[t].Tombstone?
        invariant map2.used == CountLive(s[..i])
        invariant Moved(s, i, m, map2.m)
      {
        assert s[..i + 1] == s[..i] + [s[i]];
        CountSnoc(s[..i], s[i]);
        CountPrefix(s, i);
        if buckets[i].Live? {
          LightLoad(map2.used, nkeys, map2.buckets.Length);
          NotYetMoved(s, i, m, map2.m);
          ghost var before := map2.Slots();
          KeyIn(before, map2.m, s[i].key);
          CleanWithout(before, hash, s[i].key);
          var ok, t := map2.Put(buckets[i].key, buckets[i].val);
        }
        i := i + 1;
      }
      assert s[..i] == s;
      AllMoved(s, m, map2.m);
    }

    /** The live keys there are. */
    method CountKeys() returns (nkeys: nat)
      requires buckets != null
      ensures nkeys == CountLive(buckets[..])
    {
      nkeys := 0;
      var i := 0;
      while i < buckets.Length
        invariant 0 <= i <= buckets.Length && nkeys == CountLive(buckets[..i])
      {
        assert buckets[..i + 1] == buckets[..i] + [buckets[i]];
        CountSnoc(buckets[..i], buckets[i]);
        if buckets[i].Live? {
          nkeys := nkeys + 1;
        }
        i := i + 1;
      }
      assert buckets[..i] == buckets[..];
    }

    /** hashmap_next: the first live slot from i on, and where the next call starts. */
    method Next(i: nat) returns (r: Option<nat>, j: nat)
      ensures r.None? ==> forall t | i <= t < |Slots()| :: !Slots()[t].Live?
      ensures r.Some? ==> i <= r.value < |Slots()| && j == r.value + 1 && Slots()[r.value].Live?
                          && forall t | i <= t < r.value :: !Slots()[t].Live?
    {
      j := i;
      while buckets != null && j < buckets.Length
        invariant i <= j
        invariant forall t | i <= t < j && t < |Slots()| :: !Slots()[t].Live?
        decreases if buckets != null then buckets.Length - j else 0
      {
        if buckets[j].Live? {
          return Some(j), j + 1;
        }
        j := j + 1;
      }
      return None, j;
    }

    /** A caller's iteration: every entry of the map once. */
    method Entries() returns (es: seq<(string, V)>)
      requires Valid()
      ensures forall e :: e in es <==> e.0 in m && m[e.0] == e.1
      ensures forall a, b | 0 <= a < b < |es| :: es[a].0 != es[b].0
    {
      hide Reachable, Count, IsCapacity, Represents, Enumerated;
      es := [];
      ghost var s, at: seq<nat> := Slots(), [];
      var i := 0;
      EnumStart(s);
      while true
        invariant i <= |s| && s == Slots() && Enumerated(s, es, at, i)
        decreases |s| - i
      {
        var r, j := Next(i);
        if r.None? {
          assert Valid();
          assert Represents(s, m);
          assert Slots() == s;
          assert forall t | i <= t < |s| :: !s[t].Live?;
          EnumEnd(s, es, at, i, m);
          return;
        }
        EnumStep(s, es, at, i, r.value);
        es, at, i := es + [(buckets[r.value].key, buckets[r.value].val)], at + [r.value], j;
      }
    }
  }

  /** es are the live slots before i, in bucket order; at says which. */
  ghost predicate Enumerated<V>(s: seq<Slot<V>>, es: seq<(string, V)>, at: seq<nat>, i: nat) {
    && |at| == |es| && i <= |s|
    && (forall a | 0 <= a < |at| :: at[a] < i && s[at[a]] == Live(es[a].0, es[a].1))
    && (forall a, b | 0 <= a < b < |at| :: at[a] < at[b])
    && (forall t | 0 <= t < i && s[t].Live? :: (s[t].key, s[t].val) in es)
  }

  lemma EnumStart<V>(s: seq<Slot<V>>)
    ensures Enumerated(s, [], [], 0)
  {
  }

  lemma EnumStep<V>(s: seq<Slot<V>>, es: seq<(string, V)>, at: seq<nat>, i: nat, t: nat)
    requires Enumerated(s, es, at, i) && i <= t < |s| && s[t].Live?
    requires forall u | i <= u < t :: !s[u].Live?
    ensures Enumerated(s, es + [(s[t].key, s[t].val)], at + [t], t + 1)
  {
    var es' := es + [(s[t].key, s[t].val)];
    forall u | 0 <= u < t + 1 && s[u].Live? ensures (s[u].key, s[u].val) in es' {
      if u == t {
        assert es'[|es|] == (s[u].key, s[u].val);
      }
    }
  }

  lemma EnumEnd<V>(s: seq<Slot<V>>, es: seq<(string, V)>, at: seq<nat>, i: nat, m: map<string, V>)
    requires Enumerated(s, es, at, i) && Represents(s, m) && forall t | i <= t < |s| :: !s[t].Live?
    ensures forall e :: e in es <==> e.0 in m && m[e.0] == e.1
    ensures forall a, b | 0 <= a < b < |es| :: es[a].0 != es[b].0
  {
    forall k | k in m ensures (k, m[k]) in es {
      var t :| 0 <= t < |s| && Match(s[t], k);
      assert t < i;
    }
    forall a, b | 0 <= a < b < |es| ensures es[a].0 != es[b].0 {
      assert at[a] < at[b] && s[at[a]].key == es[a].0 && s[at[b]].key == es[b].0;
    }
    forall a | 0 <= a < |es| ensures es[a].0 in m && m[es[a].0] == es[a].1 {
      assert s[at[a]].Live?;
    }
  }

  /** The first i slots' keys are in the new map. */
  ghost predicate Moved<V>(s: seq<Slot<V>>, i: nat, m: map<string, V>, m2: map<string, V>) {
    && i <= |s|
    && (forall k | k in m2 :: k in m && m2[k] == m[k] && exists t :: 0 <= t < i && Match(s[t], k))
    && (forall t | 0 <= t < i && s[t].Live? :: s[t].key in m2)
  }

  lemma NotYetMoved<V>(s: seq<Slot<V>>, i: nat, m: map<string, V>, m2: map<string, V>)
    requires Represents(s, m) && i < |s| && s[i].Live? && Moved(s, i, m, m2)
    ensures s[i].key !in m2 && Moved(s, i + 1, m, m2[s[i].key := s[i].val])
  {
    assert forall t | 0 <= t < i && s[t].Live? :: s[t].key != s[i].key;
    var m2' := m2[s[i].key := s[i].val];
    forall k | k in m2' ensures exists t :: 0 <= t < i + 1 && Match(s[t], k) {
      if k == s[i].key {
        assert Match(s[i], k);
      } else {
        var t :| 0 <= t < i && Match(s[t], k);
      }
    }
  }

  lemma KeyIn<V>(s: seq<Slot<V>>, m: map<string, V>, key: string)
    requires Represents(s, m) && key !in m
    ensures forall t | 0 <= t < |s| :: !Match(s[t], key)
  {
  }

  lemma AllMoved<V>(s: seq<Slot<V>>, m: map<string, V>, m2: map<string, V>)
    requires Represents(s, m) && Moved(s, |s|, m, m2)
    ensures m2 == m
  {
    forall k | k in m ensures k in m2 {
      var t :| 0 <= t < |s| && Match(s[t], k);
    }
  }

  lemma LightLoad(used: nat, nkeys: nat, cap: nat)
    requires cap > 0 && used <= nkeys && nkeys * 100 / cap < HASHMAP_LOW_WATERMARK
    ensures used * 100 / cap < HASHMAP_HIGH_WATERMARK
  {
    DivLess(nkeys * 100, cap, HASHMAP_LOW_WATERMARK);
    DivLess(used * 100, cap, HASHMAP_HIGH_WATERMARK);
  }

  lemma GrowOnce(nkeys: nat, cap: nat)
    requires cap > 0 && nkeys * 100 / cap >= HASHMAP_LOW_WATERMARK
    ensures NewCapacity(nkeys, cap) == NewCapacity(nkeys, cap * 2) && cap <= 2 * nkeys
  {
    DivLess(nkeys * 100, cap, HASHMAP_LOW_WATERMARK);
  }

  lemma NewCapacityStops(nkeys: nat, cap: nat)
    requires cap > 0 && nkeys * 100 / cap < HASHMAP_LOW_WATERMARK
    ensures NewCapacity(nkeys, cap) == cap
  {
  }

  lemma RoomLeft(used: nat, n: nat)
    requires n >= 16
    ensures used * 100 / n < HASHMAP_HIGH_WATERMARK ==> used + 1 < n
    ensures used * 100 / n < HASHMAP_LOW_WATERMARK ==> used * 100 / n < HASHMAP_HIGH_WATERMARK
  {
    DivLess(used * 100, n, HASHMAP_HIGH_WATERMARK);
  }

  lemma CleanWithout<V>(s: seq<Slot<V>>, hash: Hash, key: string)
    requires |s| > 0
    ensures (forall t | 0 <= t < |s| :: !s[t].Tombstone?) ==> Clean(s, hash, key)
  {
  }

  /** The put keeps one live slot a key exactly when the key was absent or had nothing deleted
      before it. */
  lemma PutChecked<V>(s: seq<Slot<V>>, hash: Hash, m: map<string, V>, key: string, v: V, t: nat)
    requires |s| > 0 && Represents(s, m) && Reachable(s, hash)
    requires Place(s, Home(hash, key, |s|), key, 0) == Some(t)
    ensures Represents(s[t := Live(key, v)], m[key := v]) <==> key !in m || Clean(s, hash, key)
  {
    PutMeans(s, hash, m, key, v, t);
    if key in m && !Clean(s, hash, key) {
      var u :| 0 <= u < |s| && u != t && s[u] == Live(key, m[key]);
      var s' := s[t := Live(key, v)];
      assert s'[u].Live? && s'[t].Live? && s'[u].key == s'[t].key;
    }
  }

  lemma NoPlace<V>(s: seq<Slot<V>>, hash: Hash, key: string, used: nat)
    requires |s| > 0 && used == Count(s) && Place(s, Home(hash, key, |s|), key, 0).None?
    ensures used == |s|
  {
    PlaceMeans(s, Home(hash, key, |s|), key, 0);
    CountFull(s);
  }

  lemma FreshTable<V>(s: seq<Slot<V>>, hash: Hash)
    requires forall t | 0 <= t < |s| :: s[t].Empty?
    ensures Count(s) == 0 && CountLive(s) == 0 && Reachable(s, hash) && Represents(s, map[])
  {
    CountEmpty(s);
  }

  lemma NoneLive<V>(m: map<string, V>)
    requires Represents([], m)
    ensures m == map[]
  {
    assert forall k :: k !in m;
  }

  lemma PlaceFills<V>(s: seq<Slot<V>>, hash: Hash, key: string, v: V, u: nat)
    requires |s| > 0 && Reachable(s, hash) && Place(s, Home(hash, key, |s|), key, 0) == Some(u)
    ensures Reachable(s[u := Live(key, v)], hash)
    ensures Count(s[u := Live(key, v)]) == Count(s) + (if s[u].Empty? then 1 else 0)
  {
    PlaceMeans(s, Home(hash, key, |s|), key, 0);
    assert NoGap(s, Home(hash, key, |s|), u);
    FillReachable(s, hash, u, Live(key, v));
    CountUpdate(s, u, Live(key, v));
  }
}
