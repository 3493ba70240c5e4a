/** Heap sort of an array of offsets under an order on what they point at. */
module HeapSort {
  /** less is a strict weak order: the names it does not tell apart form classes. */
  ghost predicate Order(less: (nat, nat) -> bool) {
    && (forall x, y :: less(x, y) ==> !less(y, x))
    && (forall x, y, z {:trigger less(x, z), less(z, y)} :: less(x, y) ==> less(x, z) || less(z, y))
  }

  /** From lo on, no parent but `hole` is less than a child below n. */
  ghost predicate Heap(less: (nat, nat) -> bool, s: seq<nat>, lo: nat, n: nat, hole: nat)
    requires n <= |s|
  {
    forall p: nat, c: nat | lo <= p && p != hole && IsChild(p, c) && c < n :: !less(s[p], s[c])
  }

  predicate IsChild(p: int, c: int) { c == 2 * p + 1 || c == 2 * p + 2 }

  function Swapped(s: seq<nat>, i: nat, j: nat): (r: seq<nat>)
    requires i < |s| && j < |s|
    ensures |r| == |s|
  {
    s[i := s[j]][j := s[i]]
  }

  lemma SwapKeeps(s: seq<nat>, i: nat, j: nat)
    requires i < |s| && j < |s|
    ensures multiset(Swapped(s, i, j)) == multiset(s)
  {
  }

  /** The parent of the hole, if there is one from lo on, is not less than the hole's children. */
  ghost predicate Above(less: (nat, nat) -> bool, s: seq<nat>, lo: nat, n: nat, hole: nat)
    requires n <= |s|
  {
    forall p: nat, c: nat | lo <= p && IsChild(p, hole) && IsChild(hole, c) && c < n :: !less(s[p], s[c])
  }

  /** One step down: the hole moves to the greater child. */
  lemma Down(less: (nat, nat) -> bool, s: seq<nat>, lo: nat, n: nat, i: nat, c: nat)
    requires Order(less) && lo <= i && n <= |s| && IsChild(i, c) && c < n
    requires Heap(less, s, lo, n, i) && Above(less, s, lo, n, i)
    requires less(s[i], s[c]) && forall k: nat | IsChild(i, k) && k < n :: !less(s[c], s[k])
    ensures var t := Swapped(s, i, c); Heap(less, t, lo, n, c) && Above(less, t, lo, n, c)
  {
    var t := Swapped(s, i, c);
    forall p: nat, k: nat | lo <= p && p != c && IsChild(p, k) && k < n
      ensures !less(t[p], t[k])
    {
      if k == i {
        assert IsChild(p, i) && IsChild(i, c);
      }
    }
    forall p: nat, k: nat | lo <= p && IsChild(p, c) && IsChild(c, k) && k < n
      ensures !less(t[p], t[k])
    {
      assert p == i && t[p] == s[c] && t[k] == s[k];
    }
  }

  lemma Start(less: (nat, nat) -> bool, s: seq<nat>, i: nat, n: nat)
    requires n <= |s| && Heap(less, s, i + 1, n, n)
    ensures Heap(less, s, i, n, i) && Above(less, s, i, n, i)
  {
  }

  lemma Filled(less: (nat, nat) -> bool, s: seq<nat>, lo: nat, n: nat, hole: nat)
    requires n <= |s| && Heap(less, s, lo, n, hole) && hole < n
    requires forall k: nat | IsChild(hole, k) && k < n :: !less(s[hole], s[k])
    ensures Heap(less, s, lo, n, n)
  {
  }

  /** The greater child of h, or nothing to go down to. */
  function Greater(less: (nat, nat) -> bool, s: seq<nat>, n: nat, h: nat): (c: nat)
    requires Order(less) && n <= |s| && 2 * h + 1 < n
    ensures IsChild(h, c) && c < n && forall k: nat | IsChild(h, k) && k < n :: !less(s[c], s[k])
  {
    if 2 * h + 2 < n && less(s[2 * h + 1], s[2 * h + 2]) then 2 * h + 2 else 2 * h + 1
  }

  /** sift: o[i] goes down until no child is greater. */
  method Sift(o: array<nat>, i: nat, n: nat, less: (nat, nat) -> bool)
    requires Order(less) && i < n <= o.Length && Heap(less, o[..], i + 1, n, n)
    modifies o
    ensures Heap(less, o[..], i, n, n) && multiset(o[..]) == old(multiset(o[..]))
    ensures o[..i] == old(o[..i]) && o[n..] == old(o[n..])
  {
    hide Heap, Above, Order;
    var h := i;
    Start(less, o[..], i, n);
    while true
      invariant i <= h < n && Heap(less, o[..], i, n, h) && Above(less, o[..], i, n, h)
      invariant multiset(o[..]) == old(multiset(o[..]))
      invariant o[..i] == old(o[..i]) && o[n..] == old(o[n..])
      decreases n - h
    {
      ghost var s := o[..];
      var c := 2 * h + 1;
      if c >= n {
        Filled(less, s, i, n, h);
        return;
      }
      if c + 1 < n && less(o[c], o[c + 1]) {
        c := c + 1;
      }
      assert c == Greater(less, s, n, h);
      if !less(o[h], o[c]) {
        NotLess(less, s, n, h);
        Filled(less, s, i, n, h);
        return;
      }
      Down(less, s, i, n, h, c);
      SwapKeeps(s, h, c);
      o[h], o[c] := o[c], o[h];
      assert o[..] == Swapped(s, h, c);
      h := c;
    }
  }

  lemma NotLess(less: (nat, nat) -> bool, s: seq<nat>, n: nat, h: nat)
    requires Order(less) && n <= |s| && 2 * h + 1 < n && !less(s[h], s[Greater(less, s, n, h)])
    ensures forall k: nat | IsChild(h, k) && k < n :: !less(s[h], s[k])
  {
  }

  /** The first of a heap is not less than any other. */
  lemma {:induction false} FirstIsGreatest(less: (nat, nat) -> bool, s: seq<nat>, n: nat, k: nat)
    requires Order(less) && n <= |s| && Heap(less, s, 0, n, n) && k < n
    ensures !less(s[0], s[k])
  {
    if k > 0 {
      var p := (k - 1) / 2;
      assert IsChild(p, k);
      FirstIsGreatest(less, s, n, p);
    }
  }

  /** No later element is less than an earlier one, from lo on. */
  ghost predicate SortedFrom(less: (nat, nat) -> bool, s: seq<nat>, lo: nat) {
    forall a: nat, b: nat | lo <= a < b < |s| :: !less(s[b], s[a])
  }

  /** The elements from lo on are not less than those before it. */
  ghost predicate Parted(less: (nat, nat) -> bool, s: seq<nat>, lo: nat) {
    forall a: nat, b: nat | a < lo <= b < |s| :: !less(s[b], s[a])
  }

  /** The loops of dirlist_sort: a heap is built, and its first taken away until nothing is left. */
  method Sort(o: array<nat>, less: (nat, nat) -> bool)
    requires Order(less)
    modifies o
    ensures SortedFrom(less, o[..], 0) && multiset(o[..]) == old(multiset(o[..]))
  {
    var n := o.Length;
    var i := n / 2;
    while i > 0
      invariant 0 <= i <= n / 2 && Heap(less, o[..], i, n, n) && multiset(o[..]) == old(multiset(o[..]))
    {
      i := i - 1;
      Sift(o, i, n, less);
    }
    i := n;
    while i > 1
      invariant 0 <= i <= n && (n > 0 ==> i > 0)
      invariant Heap(less, o[..], 0, i, i) && SortedFrom(less, o[..], i) && Parted(less, o[..], i)
      invariant multiset(o[..]) == old(multiset(o[..]))
    {
      i := i - 1;
      ghost var s := o[..];
      SwapKeeps(s, 0, i);
      o[0], o[i] := o[i], o[0];
      assert o[..] == Swapped(s, 0, i);
      TakeFirst(less, s, i);
      ghost var t := o[..];
      if i > 0 {
        Sift(o, 0, i, less);
      }
      StillParted(less, t, o[..], i);
    }
  }

  lemma TakeFirst(less: (nat, nat) -> bool, s: seq<nat>, i: nat)
    requires Order(less) && i < |s| && Heap(less, s, 0, i + 1, i + 1) && SortedFrom(less, s, i + 1) && Parted(less, s, i + 1)
    ensures var t := Swapped(s, 0, i); Heap(less, t, 1, i, i) && SortedFrom(less, t, i) && Parted(less, t, i)
  {
    forall k | 0 <= k <= i
      ensures !less(s[0], s[k])
    {
      FirstIsGreatest(less, s, i + 1, k);
    }
  }

  /** Moving the elements before i about does not matter. */
  lemma StillParted(less: (nat, nat) -> bool, s: seq<nat>, t: seq<nat>, i: nat)
    requires i <= |s| == |t| && s[i..] == t[i..] && multiset(s) == multiset(t)
    requires SortedFrom(less, s, i) && Parted(less, s, i)
    ensures SortedFrom(less, t, i) && Parted(less, t, i)
  {
    assert s == s[..i] + s[i..] && t == t[..i] + t[i..];
    assert multiset(s) == multiset(s[..i]) + multiset(s[i..]);
    assert multiset(t) == multiset(t[..i]) + multiset(t[i..]);
    forall b | i <= b < |t|
      ensures t[b] == s[b]
    {
      assert t[b] == t[i..][b - i];
    }
    forall a: nat, b: nat | a < i <= b < |t|
      ensures !less(t[b], t[a])
    {
      assert multiset(s[..i]) == multiset(s) - multiset(s[i..]) == multiset(t[..i]);
      assert t[..i][a] in multiset(t[..i]);
      assert t[a] in s[..i];
      var k :| 0 <= k < i && s[..i][k] == t[a];
      assert !less(s[b], s[k]);
    }
  }
}
