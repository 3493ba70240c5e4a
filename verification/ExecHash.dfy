/** The remembered command locations: a hash table of entries, each good for one mask, that is to
    answer what a search would. */
module ExecHash {
  import opened Wrappers

  datatype Kind = PROGRAM | EXEC | SBUILTIN | BUILTIN | FUNCTION

  /** What the union in a command points at. */
  datatype Target = Nothing | Builtin(name: string) | Body(id: nat) | Path(path: string)

  datatype Command = Command(kind: Kind, target: Target)

  const HIDE_SBUILTIN := 2
  const HIDE_BUILTIN := 4
  const HIDE_FUNCTION := 8

  predicate Hides(mask: nat, bit: nat)
    requires bit > 0
  {
    mask / bit % 2 == 1
  }

  datatype Fn = Fn(name: string, body: nat)

  /** What does not change: the builtins, the programs a PATH finds, what can be executed, and the
      hash of a name. */
  datatype World = World(
    isExec: string -> bool, isSpecial: string -> bool, isPlain: string -> bool,
    find: (string, string) -> Option<string>, runs: string -> bool, isDir: string -> bool, hash: string -> nat)

  /** mask None: the entry is not to be trusted. */
  datatype Entry = Entry(name: string, hash: nat, hits: nat, cmd: Command, mask: Option<nat>)

  const SIZE := 32

  function FnNamed(fns: seq<Fn>, name: string): Option<nat> {
    if fns == [] then None else if fns[0].name == name then Some(fns[0].body) else FnNamed(fns[1..], name)
  }

  predicate Defines(fns: seq<Fn>, name: string) { FnNamed(fns, name).Some? }

  /** Whether a search gets as far as the functions. */
  predicate AsksFunctions(w: World, name: string, mask: nat) {
    !w.isExec(name) && (Hides(mask, HIDE_SBUILTIN) || !w.isSpecial(name)) && !Hides(mask, HIDE_FUNCTION)
  }

  /** exec_search: exec, special builtins, functions, builtins, programs. */
  function Search(w: World, fns: seq<Fn>, path: string, name: string, mask: nat): Command {
    if w.isExec(name) then Command(EXEC, Builtin(name))
    else if !Hides(mask, HIDE_SBUILTIN) && w.isSpecial(name) then Command(SBUILTIN, Builtin(name))
    else if !Hides(mask, HIDE_FUNCTION) && Defines(fns, name) then Command(FUNCTION, Body(FnNamed(fns, name).value))
    else if !Hides(mask, HIDE_BUILTIN) && w.isPlain(name) then Command(BUILTIN, Builtin(name))
    else Command(PROGRAM, if w.find(path, name).Some? then Path(w.find(path, name).value) else Nothing)
  }

  /** What POSIX asks of a search (section 2.9.1.1 of the Shell Command Language), with exec apart
      and with the kinds that bits 1, 2 and 3 of the mask leave out. PATH is looked at last. */
  predicate Ordered(w: World, fns: seq<Fn>, path: string, name: string, mask: nat, cmd: Command) {
    var special := w.isSpecial(name) && mask / 2 % 2 == 0;
    var defined := (exists i :: 0 <= i < |fns| && fns[i].name == name) && mask / 8 % 2 == 0;
    var plain := w.isPlain(name) && mask / 4 % 2 == 0;
    && (cmd.kind == EXEC <==> w.isExec(name))
    && (cmd.kind == SBUILTIN <==> !w.isExec(name) && special)
    && (cmd.kind == FUNCTION <==> !w.isExec(name) && !special && defined)
    && (cmd.kind == BUILTIN <==> !w.isExec(name) && !special && !defined && plain)
    && (cmd.kind == PROGRAM <==> !w.isExec(name) && !special && !defined && !plain)
    && match cmd.kind
       case FUNCTION =>
         exists i :: 0 <= i < |fns| && fns[i].name == name && cmd.target == Body(fns[i].body) && forall j | 0 <= j < i :: fns[j].name != name
       case PROGRAM =>
         if w.find(path, name).Some? then cmd.target == Path(w.find(path, name).value) else cmd.target == Nothing
       case _ => cmd.target == Builtin(name)
  }

  lemma SearchIsOrdered(w: World, fns: seq<Fn>, path: string, name: string, mask: nat)
    ensures Ordered(w, fns, path, name, mask, Search(w, fns, path, name, mask))
  {
    FirstNamed(fns, name);
  }

  /** FnNamed is the first of the name. */
  lemma {:induction false} FirstNamed(fns: seq<Fn>, name: string)
    ensures Defines(fns, name) <==> exists i :: 0 <= i < |fns| && fns[i].name == name
    ensures Defines(fns, name) ==>
              exists i :: 0 <= i < |fns| && fns[i].name == name && Body(FnNamed(fns, name).value) == Body(fns[i].body)
                          && forall j | 0 <= j < i :: fns[j].name != name
  {
    if fns != [] {
      if fns[0].name == name {
        assert Body(FnNamed(fns, name).value) == Body(fns[0].body);
      } else {
        FirstNamed(fns[1..], name);
        if i :| 0 <= i < |fns| && fns[i].name == name {
          assert fns[1..][i - 1].name == name;
        }
        if Defines(fns, name) {
          var i :| 0 <= i < |fns[1..]| && fns[1..][i].name == name && Body(FnNamed(fns[1..], name).value) == Body(fns[1..][i].body)
                   && forall j | 0 <= j < i :: fns[1..][j].name != name;
          assert fns[i + 1].name == name && forall j | 1 <= j < i + 1 :: fns[j] == fns[1..][j - 1];
        }
      }
    }
  }

  /** A name with a slash is a path: a program if it can be executed and is no directory. */
  function Direct(w: World, name: string): Command {
    Command(PROGRAM, if w.runs(name) && !w.isDir(name) then Path(name) else Nothing)
  }

  /** Only a function can make a difference between two lists of functions. */
  lemma OtherFunctions(w: World, a: seq<Fn>, b: seq<Fn>, path: string, name: string, mask: nat)
    ensures FnNamed(a, name) == FnNamed(b, name) ==> Search(w, a, path, name, mask) == Search(w, b, path, name, mask)
    ensures Search(w, a, path, name, mask).kind != FUNCTION ==>
              (Search(w, a, path, name, mask) == Search(w, b, path, name, mask) <==>
               !(AsksFunctions(w, name, mask) && Defines(b, name)))
  {
  }

  lemma {:induction false} WithoutFn(fns: seq<Fn>, name: string, i: nat, other: string)
    requires i < |fns| && fns[i].name == name && other != name
    ensures FnNamed(fns[..i] + fns[i + 1..], other) == FnNamed(fns, other)
    decreases i
  {
    if i == 0 {
      assert fns[..0] + fns[1..] == fns[1..];
    } else {
      WithoutFn(fns[1..], name, i - 1, other);
      assert (fns[..i] + fns[i + 1..])[1..] == fns[1..][..i - 1] + fns[1..][i..];
    }
  }

  predicate InBuckets(table: seq<seq<Entry>>, b: int, k: int) {
    0 <= b < |table| && 0 <= k < |table[b]|
  }

  /** Entries are in the bucket of their hash, and no name has two. */
  ghost predicate WellPlaced(w: World, table: seq<seq<Entry>>) {
    && |table| == SIZE
    && (forall b, k | InBuckets(table, b, k) ::
          table[b][k].hash == w.hash(table[b][k].name) && w.hash(table[b][k].name) % SIZE == b)
    && (forall b, k, j | InBuckets(table, b, k) && InBuckets(table, b, j) && table[b][k].name == table[b][j].name :: k == j)
  }

  /** An entry that is trusted says what a search says. */
  predicate Agrees(w: World, fns: seq<Fn>, path: string, e: Entry) {
    e.mask.Some? ==> e.cmd == Search(w, fns, path, e.name, e.mask.value)
  }

  ghost predicate AllAgree(w: World, fns: seq<Fn>, path: string, table: seq<seq<Entry>>) {
    forall b, k | InBuckets(table, b, k) :: Agrees(w, fns, path, table[b][k])
  }

  /** A trusted entry that is not a function's, for a name that fns makes one. */
  predicate Stale(w: World, fns: seq<Fn>, e: Entry) {
    e.mask.Some? && e.cmd.kind != FUNCTION && AsksFunctions(w, e.name, e.mask.value) && Defines(fns, e.name)
  }

  ghost predicate NoneStale(w: World, fns: seq<Fn>, table: seq<seq<Entry>>) {
    forall b, k | InBuckets(table, b, k) :: !Stale(w, fns, table[b][k])
  }

  function Distrust(e: Entry): Entry { e.(mask := None) }

  /** Every entry of a bucket, or of the table, changed by f. */
  function MapRow(row: seq<Entry>, f: Entry -> Entry): (r: seq<Entry>)
    ensures |r| == |row| && forall k | 0 <= k < |row| :: r[k] == f(row[k])
  {
    seq(|row|, k requires 0 <= k < |row| => f(row[k]))
  }

  function Mapped(table: seq<seq<Entry>>, f: Entry -> Entry): (r: seq<seq<Entry>>)
    ensures |r| == |table| && forall b | 0 <= b < |table| :: r[b] == MapRow(table[b], f)
  {
    seq(|table|, b requires 0 <= b < |table| => MapRow(table[b], f))
  }

  lemma MappedKeeps(w: World, table: seq<seq<Entry>>, f: Entry -> Entry)
    requires WellPlaced(w, table) && forall e :: f(e).name == e.name && f(e).hash == e.hash
    ensures WellPlaced(w, Mapped(table, f))
    ensures forall b, k | InBuckets(Mapped(table, f), b, k) :: InBuckets(table, b, k) && Mapped(table, f)[b][k] == f(table[b][k])
    ensures forall b, k | InBuckets(table, b, k) :: InBuckets(Mapped(table, f), b, k)
  {
  }

  lemma UpdateKeeps(w: World, table: seq<seq<Entry>>, b: nat, k: nat, e: Entry)
    requires WellPlaced(w, table) && InBuckets(table, b, k) && e.name == table[b][k].name && e.hash == table[b][k].hash
    ensures WellPlaced(w, table[b := table[b][k := e]])
  {
  }

  /** exec_create: a new entry at the head of its bucket. */
  lemma InsertKeeps(w: World, table: seq<seq<Entry>>, b: nat, e: Entry)
    requires WellPlaced(w, table) && b == w.hash(e.name) % SIZE && e.hash == w.hash(e.name)
    requires forall c, k | InBuckets(table, c, k) :: table[c][k].name != e.name
    ensures WellPlaced(w, table[b := [e] + table[b]])
  {
    var t := table[b := [e] + table[b]];
    forall c, k | InBuckets(t, c, k)
      ensures t[c][k].hash == w.hash(t[c][k].name) && w.hash(t[c][k].name) % SIZE == c
    {
      assert c == b && k > 0 ==> InBuckets(table, c, k - 1);
      assert c != b ==> InBuckets(table, c, k);
    }
    forall c, k, j | InBuckets(t, c, k) && InBuckets(t, c, j) && t[c][k].name == t[c][j].name
      ensures k == j
    {
      if c == b {
        assert k > 0 ==> InBuckets(table, c, k - 1);
        assert j > 0 ==> InBuckets(table, c, j - 1);
      } else {
        assert InBuckets(table, c, k) && InBuckets(table, c, j);
      }
    }
  }

  /** A table with one entry changed, or one added, agrees if that entry does. */
  lemma AgreesUpdated(w: World, fns: seq<Fn>, path: string, table: seq<seq<Entry>>, b: nat, k: nat, e: Entry)
    requires AllAgree(w, fns, path, table) && InBuckets(table, b, k) && Agrees(w, fns, path, e)
    ensures AllAgree(w, fns, path, table[b := table[b][k := e]])
  {
    var t := table[b := table[b][k := e]];
    forall c, j | InBuckets(t, c, j)
      ensures Agrees(w, fns, path, t[c][j])
    {
      assert InBuckets(table, c, j);
    }
  }

  lemma AgreesInserted(w: World, fns: seq<Fn>, path: string, table: seq<seq<Entry>>, b: nat, e: Entry)
    requires AllAgree(w, fns, path, table) && b < |table| && Agrees(w, fns, path, e)
    ensures AllAgree(w, fns, path, table[b := [e] + table[b]])
  {
    var t := table[b := [e] + table[b]];
    forall c, k | InBuckets(t, c, k)
      ensures Agrees(w, fns, path, t[c][k])
    {
      assert c == b && k > 0 ==> InBuckets(table, c, k - 1) && t[c][k] == table[c][k - 1];
      assert c != b ==> InBuckets(table, c, k);
    }
  }

  /** Functions that differ in one name leave the other entries alone. */
  lemma AgreesWithout(w: World, a: seq<Fn>, b: seq<Fn>, path: string, table: seq<seq<Entry>>, name: string)
    requires AllAgree(w, a, path, table)
    requires forall other | other != name :: FnNamed(b, other) == FnNamed(a, other)
    requires forall c, k | InBuckets(table, c, k) && table[c][k].name == name :: table[c][k].mask.None?
    ensures AllAgree(w, b, path, table)
  {
    forall c, k | InBuckets(table, c, k)
      ensures Agrees(w, b, path, table[c][k])
    {
      var e := table[c][k];
      if e.mask.Some? {
        OtherFunctions(w, a, b, path, e.name, e.mask.value);
      }
    }
  }

  ghost predicate Distinct(fns: seq<Fn>) {
    forall i, j | 0 <= i < j < |fns| :: fns[i].name != fns[j].name
  }

  lemma {:induction false} FnNamedAt(fns: seq<Fn>, name: string)
    ensures FnNamed(fns, name).None? ==> forall i | 0 <= i < |fns| :: fns[i].name != name
    ensures forall i | 0 <= i < |fns| && Distinct(fns) && fns[i].name == name :: FnNamed(fns, name) == Some(fns[i].body)
    ensures (forall i | 0 <= i < |fns| :: fns[i].name != name) ==> FnNamed(fns, name).None?
  {
    if fns != [] {
      FnNamedAt(fns[1..], name);
      if Distinct(fns) {
        assert Distinct(fns[1..]);
        forall i | 0 <= i < |fns| && fns[i].name == name
          ensures FnNamed(fns, name) == Some(fns[i].body)
        {
          assert i > 0 ==> fns[1..][i - 1] == fns[i] && fns[0].name != fns[i].name;
        }
      }
    }
  }

  function DistrustFunction(e: Entry): Entry { if e.cmd.kind == FUNCTION then Distrust(e) else e }

  /** What the restored functions make of the table: it agrees exactly if no entry is stale. */
  lemma RestoredAgrees(w: World, was: seq<Fn>, now: seq<Fn>, path: string, table: seq<seq<Entry>>)
    requires WellPlaced(w, table) && AllAgree(w, was, path, table)
    ensures AllAgree(w, now, path, Mapped(table, DistrustFunction)) <==> NoneStale(w, now, table)
    ensures (forall name :: Defines(now, name) ==> Defines(was, name)) ==> NoneStale(w, now, table)
  {
    var t := Mapped(table, DistrustFunction);
    MappedKeeps(w, table, DistrustFunction);
    forall c, k | InBuckets(table, c, k)
      ensures Agrees(w, now, path, t[c][k]) <==> !Stale(w, now, table[c][k])
      ensures Stale(w, now, table[c][k]) ==> !Defines(was, table[c][k].name)
    {
      var e := table[c][k];
      assert InBuckets(t, c, k) && t[c][k] == DistrustFunction(e);
      if e.mask.Some? {
        OtherFunctions(w, was, now, path, e.name, e.mask.value);
      }
    }
  }

  /** The table has an entry that is trusted for the mask. */
  ghost predicate Remembers(table: seq<seq<Entry>>, name: string, mask: nat, cmd: Command) {
    exists b, k | InBuckets(table, b, k) :: table[b][k].name == name && table[b][k].mask == Some(mask) && table[b][k].cmd == cmd
  }

  lemma OnlyEntry(w: World, table: seq<seq<Entry>>, b: nat, k: nat, mask: nat)
    requires WellPlaced(w, table) && InBuckets(table, b, k)
    ensures forall c | Remembers(table, table[b][k].name, mask, c) :: table[b][k].mask == Some(mask) && table[b][k].cmd == c
  {
    forall c | Remembers(table, table[b][k].name, mask, c)
      ensures table[b][k].mask == Some(mask) && table[b][k].cmd == c
    {
      var d, j :| InBuckets(table, d, j) && table[d][j].name == table[b][k].name && table[d][j].mask == Some(mask) && table[d][j].cmd == c;
      assert d == b && j == k;
    }
  }

  lemma NoneTrusted(w: World, fns: seq<Fn>, path: string, table: seq<seq<Entry>>)
    requires forall b, k | InBuckets(table, b, k) :: table[b][k].mask.None?
    ensures AllAgree(w, fns, path, table)
  {
  }

  class Cache {
    const w: World
    var functions: seq<Fn>
    var path: string
    var seen: Option<string>
    var table: seq<seq<Entry>>
    var snaps: seq<seq<Fn>>
    var hashall: bool // set -h

    constructor (w: World, path: string)
      ensures this.w == w && Valid() && functions == [] && this.path == path && snaps == [] && hashall
    {
      this.w, this.path, hashall := w, path, true;
      functions, seen, snaps := [], None, [];
      table := seq(SIZE, _ => []);
    }

    ghost predicate Valid()
      reads this
    {
      && WellPlaced(w, table)
      && Distinct(functions) && (forall i | 0 <= i < |snaps| :: Distinct(snaps[i]))
      && (seen.None? ==> forall b, k | InBuckets(table, b, k) :: table[b][k].mask.None?)
      && (seen.Some? ==> AllAgree(w, functions, seen.value, table))
    }

    /** exec_search */
    method ExecSearch(name: string, mask: nat) returns (cmd: Command)
      ensures cmd == Search(w, functions, path, name, mask) && Ordered(w, functions, path, name, mask, cmd)
    {
      hide Ordered;
      SearchIsOrdered(w, functions, path, name, mask);
      cmd := Command(EXEC, if w.isExec(name) then Builtin(name) else Nothing);
      if !Hides(mask, HIDE_SBUILTIN) && cmd.target.Nothing? {
        cmd := Command(SBUILTIN, if w.isSpecial(name) then Builtin(name) else Nothing);
      }
      if !Hides(mask, HIDE_FUNCTION) && cmd.target.Nothing? {
        var i := 0;
        while i < |functions| && functions[i].name != name
          invariant i <= |functions| && FnNamed(functions[i..], name) == FnNamed(functions, name)
        {
          i := i + 1;
        }
        cmd := Command(FUNCTION, if i < |functions| then Body(functions[i].body) else Nothing);
      }
      if !Hides(mask, HIDE_BUILTIN) && cmd.target.Nothing? {
        cmd := Command(BUILTIN, if w.isPlain(name) then Builtin(name) else Nothing);
      }
      if cmd.target.Nothing? {
        var found := w.find(path, name);
        cmd := Command(PROGRAM, if found.Some? then Path(found.value) else Nothing);
      }
    }

    /** exec_lookup */
    method ExecLookup(name: string) returns (b: nat, at: Option<nat>)
      requires WellPlaced(w, table)
      ensures b == w.hash(name) % SIZE
      ensures at.Some? ==> at.value < |table[b]| && table[b][at.value].name == name
      ensures at.None? ==> forall c, k | InBuckets(table, c, k) :: table[c][k].name != name
    {
      b := w.hash(name) % SIZE;
      var k: nat := 0;
      while k < |table[b]|
        invariant k <= |table[b]| && forall j | 0 <= j < k :: table[b][j].name != name
      {
        if table[b][k].hash == w.hash(name) && table[b][k].name == name {
          return b, Some(k);
        }
        k := k + 1;
      }
      at := None;
      forall c, k | InBuckets(table, c, k)
        ensures table[c][k].name != name
      {
        assert w.hash(table[c][k].name) % SIZE == c;
      }
    }

    /** exec_hash_invalidate_all */
    method InvalidateAll()
      requires WellPlaced(w, table)
      modifies this`table
      ensures WellPlaced(w, table) && forall b, k | InBuckets(table, b, k) :: table[b][k].mask.None?
    {
      MappedKeeps(w, table, Distrust);
      table := Mapped(table, Distrust);
    }

    /** exec_hash: what a search would say, remembered; or, where the cache is not right, what it
        remembers. A path is not remembered, and nothing is while hashing is off. */
    method Lookup(name: string, mask: nat) returns (cmd: Command)
      requires WellPlaced(w, table)
      modifies this`table, this`seen
      ensures WellPlaced(w, table) && seen == Some(path) && (old(Valid()) ==> Valid())
      ensures '/' in name ==> cmd == Direct(w, name)
      ensures '/' !in name && (old(Valid()) || !hashall) ==> cmd == Search(w, functions, path, name, mask)
      ensures '/' !in name && (old(Valid()) || !hashall) ==> Ordered(w, functions, path, name, mask, cmd)
      ensures ('/' in name || !hashall) && old(seen) == Some(path) ==> table == old(table)
      ensures '/' !in name && hashall && !cmd.target.Nothing? ==> Remembers(table, name, mask, cmd)
      ensures '/' !in name && hashall ==>
                forall c | old(seen) == Some(path) && Remembers(old(table), name, mask, c) && (c.target.Path? ==> w.runs(c.target.path)) :: cmd == c
    {
      hide Hides, WellPlaced, AllAgree, Distinct, Ordered;
      SearchIsOrdered(w, functions, path, name, mask);
      if seen.None? || seen.value != path {
        ghost var valid := Valid();
        InvalidateAll();
        seen := Some(path);
        assert valid ==> Valid() by { NoneTrusted(w, functions, path, table); }
      }
      if '/' in name {
        cmd := Command(PROGRAM, if w.runs(name) && !w.isDir(name) then Path(name) else Nothing);
      } else if !hashall {
        cmd := ExecSearch(name, mask);
      } else {
        cmd := Remembered(name, mask);
      }
    }

    /** The part of exec_hash that asks and fills the table. */
    method Remembered(name: string, mask: nat) returns (cmd: Command)
      requires WellPlaced(w, table) && seen == Some(path)
      modifies this`table
      ensures WellPlaced(w, table)
      ensures old(Valid()) ==> Valid() && cmd == Search(w, functions, path, name, mask)
      ensures !cmd.target.Nothing? ==> Remembers(table, name, mask, cmd)
      ensures forall c | Remembers(old(table), name, mask, c) && (c.target.Path? ==> w.runs(c.target.path)) :: cmd == c
    {
      hide Hides;
      ghost var valid := Valid();
      var b, at := ExecLookup(name);
      if at.None? {
        cmd := ExecSearch(name, mask);
        if !cmd.target.Nothing? {
          var e := Entry(name, w.hash(name), 1, cmd, Some(mask));
          InsertKeeps(w, table, b, e);
          if valid {
            AgreesInserted(w, functions, path, table, b, e);
          }
          table := table[b := [e] + table[b]];
          assert InBuckets(table, b, 0) && table[b][0] == e;
        }
        return;
      }
      var k := at.value;
      var e := table[b][k];
      assert InBuckets(table, b, k);
      OnlyEntry(w, table, b, k, mask);
      e := e.(hits := e.hits + 1);
      cmd := e.cmd;
      if e.mask == Some(mask) && cmd.kind == PROGRAM && cmd.target.Path? && !w.runs(cmd.target.path) {
        e := e.(mask := None);
      }
      if e.mask != Some(mask) {
        cmd := ExecSearch(name, mask);
        e := e.(hits := 1);
      }
      e := e.(cmd := cmd, mask := Some(mask));
      UpdateKeeps(w, table, b, k, e);
      if valid {
        AgreesUpdated(w, functions, path, table, b, k, e);
      }
      table := table[b := table[b][k := e]];
      assert InBuckets(table, b, k) && table[b][k] == e;
    }

    /** An entry for the name, if there is one, is not trusted any more. */
    method Forget(name: string)
      requires Valid()
      modifies this`table
      ensures Valid()
      ensures forall c, k | InBuckets(table, c, k) && table[c][k].name == name :: table[c][k].mask.None?
    {
      var b, at := ExecLookup(name);
      if at.Some? {
        var e := Distrust(table[b][at.value]);
        assert InBuckets(table, b, at.value);
        UpdateKeeps(w, table, b, at.value, e);
        if seen.Some? {
          AgreesUpdated(w, functions, seen.value, table, b, at.value, e);
        }
        ghost var was := table;
        table := table[b := table[b][at.value := e]];
        forall c, k | InBuckets(table, c, k) && table[c][k].name == name
          ensures table[c][k].mask.None?
        {
          assert InBuckets(was, c, k) && InBuckets(table, b, at.value);
          assert w.hash(table[c][k].name) % SIZE == c;
        }
        forall c, k | InBuckets(table, c, k)
          ensures seen.None? ==> table[c][k].mask.None?
        {
          assert InBuckets(was, c, k);
        }
      }
    }

    /** find_function and the unlinking. */
    method Unlink(name: string) returns (found: bool)
      requires Distinct(functions)
      modifies this`functions
      ensures Distinct(functions) && !Defines(functions, name) && found == Defines(old(functions), name)
      ensures forall other | other != name :: FnNamed(functions, other) == FnNamed(old(functions), other)
    {
      ghost var was := functions;
      FnNamedAt(functions, name);
      var i: nat := 0;
      while i < |functions| && functions[i].name != name
        invariant i <= |functions| && forall j | 0 <= j < i :: functions[j].name != name
        modifies {}
      {
        i := i + 1;
      }
      found := i < |functions|;
      if found {
        forall other | other != name
          ensures FnNamed(was[..i] + was[i + 1..], other) == FnNamed(was, other)
        {
          WithoutFn(was, name, i, other);
        }
        functions := functions[..i] + functions[i + 1..];
      }
      FnNamedAt(functions, name);
    }

    /** eval_function: the definition, first in the list, and no entry that remembers the old one. */
    method Define(name: string, body: nat)
      requires Valid()
      modifies this`functions, this`table
      ensures Valid() && FnNamed(functions, name) == Some(body)
      ensures forall other | other != name :: FnNamed(functions, other) == FnNamed(old(functions), other)
    {
      ghost var was := functions;
      Forget(name);
      var _ := Unlink(name);
      FnNamedAt(functions, name);
      ghost var mid := functions;
      functions := [Fn(name, body)] + functions;
      assert functions[1..] == mid;
      forall other | other != name
        ensures FnNamed(functions, other) == FnNamed(was, other)
      {
        assert FnNamed(mid, other) == FnNamed(was, other);
      }
      if seen.Some? {
        AgreesWithout(w, was, functions, seen.value, table, name);
      }
    }

    /** builtin_unset, for a function. */
    method Unset(name: string)
      requires Valid()
      modifies this`functions, this`table
      ensures Valid() && !Defines(functions, name)
      ensures forall other | other != name :: FnNamed(functions, other) == FnNamed(old(functions), other)
    {
      ghost var was := functions;
      if Defines(functions, name) {
        Forget(name);
        var _ := Unlink(name);
        if seen.Some? {
          AgreesWithout(w, was, functions, seen.value, table, name);
        }
      }
    }

    /** An assignment to PATH: nothing happens until the next lookup. */
    method SetPath(p: string)
      requires Valid()
      modifies this`path
      ensures Valid() && path == p
    {
      path := p;
    }

    /** set -h and set +h. */
    method SetHashing(on: bool)
      requires Valid()
      modifies this`hashall
      ensures Valid() && hashall == on
    {
      hashall := on;
    }

    /** exec_functions_save, as a subshell begins. */
    method Save()
      requires Valid()
      modifies this`snaps
      ensures Valid() && snaps == old(snaps) + [functions]
    {
      snaps := snaps + [functions];
    }

    /** exec_functions_restore, as it ends. The cache is right again exactly if it holds no lookup
        that took a function of the parent for something else; that needs an unset in the subshell. */
    method Restore()
      requires Valid() && snaps != []
      modifies this`functions, this`table, this`snaps
      ensures functions == old(snaps)[|old(snaps)| - 1] && snaps == old(snaps)[..|old(snaps)| - 1]
      ensures WellPlaced(w, table) && table == Mapped(old(table), DistrustFunction)
      ensures Valid() <==> NoneStale(w, functions, old(table))
      ensures (forall name :: Defines(functions, name) ==> Defines(old(functions), name)) ==> Valid()
    {
      ghost var was := table;
      MappedKeeps(w, table, DistrustFunction);
      if seen.Some? {
        RestoredAgrees(w, functions, snaps[|snaps| - 1], seen.value, table);
      }
      functions := snaps[|snaps| - 1];
      snaps := snaps[..|snaps| - 1];
      table := Mapped(table, DistrustFunction);
    }
  }

  lemma StillRemembers(w: World, table: seq<seq<Entry>>, name: string, mask: nat, cmd: Command)
    requires WellPlaced(w, table) && Remembers(table, name, mask, cmd) && cmd.kind != FUNCTION
    ensures Remembers(Mapped(table, DistrustFunction), name, mask, cmd)
  {
    MappedKeeps(w, table, DistrustFunction);
    var b, k :| InBuckets(table, b, k) && table[b][k].name == name && table[b][k].mask == Some(mask) && table[b][k].cmd == cmd;
    assert InBuckets(Mapped(table, DistrustFunction), b, k);
  }

  /** A subshell that unsets its parent's function and looks the name up: after
      `(unset -f ls; ls)` the parent's `ls` is the program, where a search finds the function. */
  method UnsetInSubshell(w: World, path: string, program: string) returns (cmd: Command, searched: Command)
    requires !w.isExec("ls") && !w.isSpecial("ls") && !w.isPlain("ls")
    requires w.find(path, "ls") == Some(program) && w.runs(program)
    ensures cmd == Command(PROGRAM, Path(program)) && searched == Command(FUNCTION, Body(0))
  {
    var c := new Cache(w, path);
    c.Define("ls", 0);
    c.Save();
    c.Unset("ls");
    cmd := c.Lookup("ls", 0);
    StillRemembers(w, c.table, "ls", 0, cmd);
    c.Restore();
    searched := c.ExecSearch("ls", 0);
    cmd := c.Lookup("ls", 0);
  }
}
