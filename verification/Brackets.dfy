/** Bracket expressions as the matcher reads them, character by character, and what they mean. */
module Brackets {
  import opened Wrappers
  import opened Patterns

  predicate Opener(c: char) {
    c == ':' || c == '.' || c == '='
  }

  /** One past the closing "delim]" at or after t, or 0. */
  function SubexprEnd(p: string, t: nat, delim: char): (e: nat)
    ensures e == 0 || t + 2 <= e <= |p|
    decreases |p| - t
  {
    if t + 1 >= |p| then 0
    else if p[t] == delim && p[t + 1] == ']' then t + 2
    else SubexprEnd(p, t + 1, delim)
  }

  /** The end of the "[:class:]", "[.x.]" or "[=x=]" that starts at k, or 0. */
  function SubexprAt(p: string, k: nat): (e: nat)
    ensures e == 0 || k + 4 <= e <= |p|
  {
    if k + 1 < |p| && p[k] == '[' && Opener(p[k + 1]) then SubexprEnd(p, k + 2, p[k + 1]) else 0
  }

  /** The "-x" that makes a range of the member before k: the end point and where it ends. */
  function RangeEnd(p: string, k: nat): (r: Option<(char, nat)>)
    ensures r.Some? ==> k + 2 <= r.value.1 <= |p|
  {
    if k + 2 > |p| || p[k] != '-' || p[k + 1] == ']' then
      None
    else if k + 3 <= |p| && p[k + 1] == '[' && (p[k + 2] == '.' || p[k + 2] == '=') then
      var e := SubexprAt(p, k + 1);
      if e == 0 || e - (k + 1) - 4 != 1 then None else Some((p[k + 3], e))
    else
      Some((p[k + 1], k + 2))
  }

  predicate Escape(v: Env, p: string, k: nat)
    requires k < |p|
  {
    p[k] == '\\' && k + 1 < |p| && !v.noescape
  }

  /** The member at k and where the next one starts. */
  function MemberAt(v: Env, p: string, k: nat): (r: (Member, nat))
    requires k < |p|
    ensures k < r.1 <= |p|
  {
    if Escape(v, p, k) then
      (One(p[k + 1]), k + 2)
    else if p[k] == '[' && k + 1 < |p| && Opener(p[k + 1]) then
      var e := SubexprAt(p, k);
      if e == 0 then (One('['), k + 1)
      else if p[k + 1] == ':' then (Class(p[k + 2..e - 2]), e)
      else if e - k - 4 != 1 then (Never, e)
      else match RangeEnd(p, e)
        case Some((hi, n)) => (Range(p[k + 2], hi), n)
        case None => (One(p[k + 2]), e)
    else match RangeEnd(p, k + 1)
      case Some((hi, n)) => (Range(p[k], hi), n)
      case None => (One(p[k]), k + 1)
  }

  /** Where the scan from k to the closing ']' moves next: over an escaped character or a
      subexpression as a whole. */
  function SkipOne(v: Env, p: string, k: nat): (n: nat)
    requires k < |p|
    ensures k < n <= |p|
  {
    if Escape(v, p, k) then k + 2
    else if SubexprAt(p, k) != 0 then SubexprAt(p, k)
    else k + 1
  }

  /** One past the ']' that the scan from k stops at, or the end of the pattern. */
  function Skip(v: Env, p: string, k: nat): (n: nat)
    requires k <= |p|
    ensures k <= n <= |p|
    decreases |p| - k
  {
    if k == |p| then k
    else if p[k] == ']' then k + 1
    else Skip(v, p, SkipOne(v, p, k))
  }

  function At(v: Env, p: string, k: nat): char {
    if k < |p| then p[k] else v.past
  }

  /** The members from k on against c, as the matcher tries them: where it goes on in the pattern
      after a match. */
  function Scan(v: Env, p: string, start: nat, k: nat, negated: bool, c: char): (r: Option<nat>)
    requires k <= |p|
    ensures r.Some? ==> k < r.value <= |p|
    decreases |p| - k
  {
    if k == |p| || (p[k] == ']' && k != start) then
      None
    else
      var (m, n) := MemberAt(v, p, k);
      var res := Holds(v, m, c);
      if (res && !negated) || (!res && negated && At(v, p, n) == ']') then Some(Skip(v, p, n))
      else if res && negated then None
      else Scan(v, p, start, n, negated, c)
  }

  /** The scan for a closing ']' that decides whether '[' opens a bracket expression at all. */
  predicate ClosesFrom(v: Env, p: string, j: nat)
    decreases |p| - j
  {
    if j >= |p| then false
    else if p[j] == '\\' && !v.noescape then ClosesFrom(v, p, j + 2)
    else if SubexprAt(p, j) != 0 then ClosesFrom(v, p, SubexprAt(p, j))
    else p[j] == ']' || ClosesFrom(v, p, j + 1)
  }

  /** The first member of the bracket expression at i: after '[' and '!'. */
  function Start(p: string, i: nat): nat
    requires i < |p|
  {
    if i + 1 < |p| && p[i + 1] == '!' then i + 2 else i + 1
  }

  predicate HasClose(v: Env, p: string, i: nat)
    requires i < |p|
  {
    ClosesFrom(v, p, Start(p, i) + 1)
  }

  /** The members from k up to the closing ']', and its position. */
  function Body(v: Env, p: string, start: nat, k: nat): (r: Option<(seq<Member>, nat)>)
    ensures r.Some? ==> k <= r.value.1 < |p| && p[r.value.1] == ']'
    decreases |p| - k
  {
    if k >= |p| then None
    else if p[k] == ']' && k != start then Some(([], k))
    else
      var (m, n) := MemberAt(v, p, k);
      match Body(v, p, start, n)
      case Some((ms, close)) => Some(([m] + ms, close))
      case None => None
  }

  /** The character at h, a plain range end point, means something else to SkipOne. */
  predicate OddEndPoint(v: Env, p: string, h: nat)
    requires h < |p|
  {
    Escape(v, p, h) || SubexprAt(p, h) != 0
  }

  /** Every member from k on is passed whole by the scans for the closing ']': the first one is not
      escaped and is no subexpression, and no range ends in a plain but odd character. */
  predicate Tidy(v: Env, p: string, start: nat, k: nat)
    decreases |p| - k
  {
    if k >= |p| || (p[k] == ']' && k != start) then true
    else
      var (m, n) := MemberAt(v, p, k);
      && (k == start ==> !Escape(v, p, k) && SubexprAt(p, k) == 0)
      && PlainEnd(v, p, k)
      && Tidy(v, p, start, n)
  }

  predicate PlainEnd(v: Env, p: string, k: nat)
    requires k < |p|
  {
    var (m, n) := MemberAt(v, p, k);
    m.Range? && p[n - 1] != ']' ==> !OddEndPoint(v, p, n - 1)
  }

  /** What m takes is taken by one of the members before it. */
  ghost predicate Hidden(v: Env, before: seq<Member>, m: Member) {
    forall c | Holds(v, m, c) && !Slash(v, c) :: AnyHolds(v, before, c)
  }

  /** From behind every member that can be the first to take a character, the skip stops at the
      closing ']'. */
  ghost predicate SkipsRight(v: Env, p: string, start: nat, k: nat, before: seq<Member>, close: nat)
    decreases |p| - k
  {
    if k >= |p| || (p[k] == ']' && k != start) then true
    else
      var (m, n) := MemberAt(v, p, k);
      (Skip(v, p, n) == close + 1 || Hidden(v, before, m)) && SkipsRight(v, p, start, n, before + [m], close)
  }

  /** The bracket expression at i is seen to be one if it is one, and, unless it is negated, what is
      skipped after a match is the rest of it. */
  ghost predicate Right(v: Env, p: string, i: nat)
    requires i < |p|
  {
    var start := Start(p, i);
    match Body(v, p, start, start)
    case Some((ms, close)) => HasClose(v, p, i) && (start == i + 2 || SkipsRight(v, p, start, start, [], close))
    case None => !HasClose(v, p, i)
  }

  /** A plain range end point is never ']'; the end of a subexpression always is. */
  lemma {:induction false} SubexprEndsInBracket(p: string, t: nat, delim: char)
    ensures var e := SubexprEnd(p, t, delim); e != 0 ==> p[e - 1] == ']' && p[e - 2] == delim
    decreases |p| - t
  {
    if t + 1 < |p| && !(p[t] == delim && p[t + 1] == ']') {
      SubexprEndsInBracket(p, t + 1, delim);
    }
  }

  /** From one member to the next, unless the member is the first one and starts with ']': the skip
      and the scan for a closing ']' pass it whole. */
  lemma SkipOverMember(v: Env, p: string, k: nat)
    requires k < |p| && p[k] != ']' && PlainEnd(v, p, k)
    ensures Skip(v, p, k) == Skip(v, p, MemberAt(v, p, k).1)
    ensures ClosesFrom(v, p, k) == ClosesFrom(v, p, MemberAt(v, p, k).1)
  {
    var (m, n) := MemberAt(v, p, k);
    if m.Range? {
      var f := SkipOne(v, p, k); // the '-'
      RangeTail(v, p, f, n);
    }
  }

  /** The "-x" behind the first character of a range. */
  lemma RangeTail(v: Env, p: string, f: nat, n: nat)
    requires f < |p| && RangeEnd(p, f).Some? && RangeEnd(p, f).value.1 == n
    requires p[n - 1] != ']' ==> !OddEndPoint(v, p, n - 1)
    ensures Skip(v, p, f) == Skip(v, p, n) && ClosesFrom(v, p, f) == ClosesFrom(v, p, n)
  {
    assert p[f] == '-';
    assert Skip(v, p, f) == Skip(v, p, f + 1) && ClosesFrom(v, p, f) == ClosesFrom(v, p, f + 1);
    if f + 3 <= |p| && p[f + 1] == '[' && (p[f + 2] == '.' || p[f + 2] == '=') {
      assert SkipOne(v, p, f + 1) == n;
    } else {
      assert n == f + 2 && SkipOne(v, p, f + 1) == n;
      if p[f + 1] == '\\' && !v.noescape {
        assert n == |p| && !ClosesFrom(v, p, f + 3);
      }
    }
  }

  /** The scan for a closing ']' begins behind the first character, whatever that is. */
  lemma CloseOverFirst(v: Env, p: string, k: nat)
    requires k < |p| && !Escape(v, p, k) && SubexprAt(p, k) == 0 && PlainEnd(v, p, k)
    ensures ClosesFrom(v, p, k + 1) == ClosesFrom(v, p, MemberAt(v, p, k).1)
  {
    var (m, n) := MemberAt(v, p, k);
    if m.Range? {
      RangeTail(v, p, k + 1, n);
    }
  }

  /** Behind the first member, the scan and the members agree on whether there is a closing ']', and
      the skip stops there. */
  lemma {:induction false} TidyCloses(v: Env, p: string, start: nat, k: nat)
    requires start < k <= |p| && Tidy(v, p, start, k)
    ensures ClosesFrom(v, p, k) <==> Body(v, p, start, k).Some?
    ensures Body(v, p, start, k).Some? ==> Skip(v, p, k) == Body(v, p, start, k).value.1 + 1
    decreases |p| - k
  {
    hide MemberAt;
    if k < |p| && p[k] != ']' {
      SkipOverMember(v, p, k);
      TidyCloses(v, p, start, MemberAt(v, p, k).1);
    }
  }

  /** path_fnmatch_has_close and the loop over the members agree. */
  lemma HasCloseMeans(v: Env, p: string, i: nat)
    requires i < |p| && Tidy(v, p, Start(p, i), Start(p, i))
    ensures HasClose(v, p, i) <==> Body(v, p, Start(p, i), Start(p, i)).Some?
  {
    var start := Start(p, i);
    if start < |p| {
      CloseOverFirst(v, p, start);
      TidyCloses(v, p, start, MemberAt(v, p, start).1);
    }
  }

  lemma {:induction false} TidySkips(v: Env, p: string, start: nat, k: nat, before: seq<Member>)
    requires start <= k <= |p| && Tidy(v, p, start, k) && Body(v, p, start, k).Some?
    ensures SkipsRight(v, p, start, k, before, Body(v, p, start, k).value.1)
    decreases |p| - k
  {
    hide MemberAt;
    if p[k] != ']' || k == start {
      var (m, n) := MemberAt(v, p, k);
      TidyCloses(v, p, start, n);
      TidySkips(v, p, start, n, before + [m]);
    }
  }

  lemma TidyIsRight(v: Env, p: string, i: nat)
    requires i < |p| && Tidy(v, p, Start(p, i), Start(p, i))
    ensures Right(v, p, i)
  {
    var start := Start(p, i);
    HasCloseMeans(v, p, i);
    if Body(v, p, start, start).Some? {
      TidySkips(v, p, start, start, []);
    }
  }

  lemma NoneHolds(v: Env, c: char)
    ensures !AnyHolds(v, [], c)
  {
  }

  lemma AnyOf(v: Env, before: seq<Member>, m: Member, c: char)
    ensures AnyHolds(v, [m] + before, c) <==> Holds(v, m, c) || AnyHolds(v, before, c)
    ensures AnyHolds(v, before + [m], c) <==> Holds(v, m, c) || AnyHolds(v, before, c)
  {
    assert forall x :: x in [m] + before <==> x == m || x in before;
    assert forall x :: x in before + [m] <==> x == m || x in before;
  }

  /** Trying the members one by one decides membership, and leaves off right behind the ']'. */
  lemma {:induction false} ScanMeans(v: Env, p: string, start: nat, k: nat, before: seq<Member>, c: char)
    requires start <= k <= |p| && Body(v, p, start, k).Some?
    requires SkipsRight(v, p, start, k, before, Body(v, p, start, k).value.1)
    requires !AnyHolds(v, before, c) && !Slash(v, c)
    ensures var (ms, close) := Body(v, p, start, k).value;
            Scan(v, p, start, k, false, c) == if AnyHolds(v, ms, c) then Some(close + 1) else None
    decreases |p| - k
  {
    hide MemberAt, Skip, Holds, AnyHolds;
    NoneHolds(v, c);
    var (ms, close) := Body(v, p, start, k).value;
    if p[k] != ']' || k == start {
      var (m, n) := MemberAt(v, p, k);
      assert ms == [m] + ms[1..] && Body(v, p, start, n) == Some((ms[1..], close));
      AnyOf(v, ms[1..], m, c);
      AnyOf(v, before, m, c);
      if !Holds(v, m, c) {
        ScanMeans(v, p, start, n, before + [m], c);
      }
    }
  }

  /** Where that does not hold of the skips, some character shows it. */
  lemma {:induction false} ScanGoesWrong(v: Env, p: string, start: nat, k: nat, before: seq<Member>) returns (c: char)
    requires start <= k <= |p| && Body(v, p, start, k).Some?
    requires !SkipsRight(v, p, start, k, before, Body(v, p, start, k).value.1)
    ensures !AnyHolds(v, before, c) && !Slash(v, c) && AnyHolds(v, Body(v, p, start, k).value.0, c)
    ensures var r := Scan(v, p, start, k, false, c); r.Some? && r.value != Body(v, p, start, k).value.1 + 1
    decreases |p| - k
  {
    hide MemberAt, Skip, Holds, AnyHolds;
    var (ms, close) := Body(v, p, start, k).value;
    var (m, n) := MemberAt(v, p, k);
    assert ms == [m] + ms[1..] && Body(v, p, start, n) == Some((ms[1..], close));
    if Skip(v, p, n) == close + 1 || Hidden(v, before, m) {
      c := ScanGoesWrong(v, p, start, n, before + [m]);
      AnyOf(v, before, m, c);
    } else {
      c :| Holds(v, m, c) && !Slash(v, c) && !AnyHolds(v, before, c);
    }
    AnyOf(v, ms[1..], m, c);
  }

  /** A negated expression is left off right behind its ']' in any case: only the last member ends it. */
  lemma {:induction false} ScanNegated(v: Env, p: string, start: nat, k: nat, c: char)
    requires start <= k <= |p| && Body(v, p, start, k).Some? && (k == start || p[k] != ']')
    ensures var (ms, close) := Body(v, p, start, k).value;
            Scan(v, p, start, k, true, c) == if AnyHolds(v, ms, c) then None else Some(close + 1)
    decreases |p| - k
  {
    hide MemberAt, Holds, AnyHolds;
    NoneHolds(v, c);
    var (ms, close) := Body(v, p, start, k).value;
    var (m, n) := MemberAt(v, p, k);
    assert ms == [m] + ms[1..] && Body(v, p, start, n) == Some((ms[1..], close));
    AnyOf(v, ms[1..], m, c);
    if p[n] == ']' {
      assert ms[1..] == [];
    } else if !Holds(v, m, c) {
      ScanNegated(v, p, start, n, c);
    }
  }
}
