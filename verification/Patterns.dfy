/** Pathname patterns: what a pattern means, element by element. The matcher itself, which works
    on the characters of the pattern, is in Fnmatch.dfy. */
module Patterns {

  /** The flag bits, and what the platform decides: the order of characters (char may be signed),
      the ctype tests, and the byte that happens to follow the pattern in memory. */
  datatype Env = Env(pathname: bool, noescape: bool, period: bool,
                     le: (char, char) -> bool, isClass: (string, char) -> bool, past: char)

  datatype Member = One(c: char) | Range(lo: char, hi: char) | Class(name: string) | Never

  datatype Element =
    | Lit(c: char)
    | AnyChar
    | Star
    | Set(members: seq<Member>, negated: bool)
    | Dead // a trailing backslash

  const CLASS_NAMES: set<string> :=
    {"upper", "lower", "alpha", "digit", "alnum", "punct", "graph", "print", "cntrl", "blank", "space", "xdigit"}

  predicate Holds(v: Env, m: Member, c: char) {
    match m
    case One(x) => x == c
    case Range(lo, hi) => v.le(lo, c) && v.le(c, hi)
    case Class(name) => name in CLASS_NAMES && v.isClass(name, c)
    case Never => false
  }

  predicate AnyHolds(v: Env, ms: seq<Member>, c: char) {
    exists m | m in ms :: Holds(v, m, c)
  }

  predicate Slash(v: Env, c: char) {
    v.pathname && c == '/'
  }

  /** One element other than Star against one character. */
  predicate Takes(v: Env, e: Element, c: char) {
    match e
    case Lit(x) => x == c
    case AnyChar => !Slash(v, c)
    case Set(ms, negated) => !Slash(v, c) && AnyHolds(v, ms, c) != negated
    case Star => false
    case Dead => false
  }

  /** s[j] is a leading period, which only a literal period matches. */
  predicate Blocked(v: Env, e: Element, s: string, j: nat)
    requires j < |s|
  {
    && v.period && s[j] == '.' && !(e.Lit? && e.c == '.')
    && (j == 0 || (v.pathname && s[j - 1] == '/'))
  }

  /** A Star may absorb s[j..k]. */
  ghost predicate Free(v: Env, s: string, j: nat, k: nat)
    requires k <= |s|
  {
    forall t | j <= t < k :: !Slash(v, s[t])
  }

  /** The matching relation: each Star absorbs any run it may, independently of the others. */
  ghost predicate Matches(v: Env, es: seq<Element>, s: string, j: nat)
    requires j <= |s|
    decreases |es|
  {
    if es == [] then
      j == |s|
    else if es[0].Star? then
      && (j < |s| ==> !Blocked(v, es[0], s, j))
      && exists k :: j <= k <= |s| && Free(v, s, j, k) && Matches(v, es[1..], s, k)
    else
      && j < |s| && !Blocked(v, es[0], s, j) && Takes(v, es[0], s[j])
      && Matches(v, es[1..], s, j + 1)
  }
}

/** Matching with a single bookmark, over elements: the most recent Star is the only one that is
    ever extended. It decides the same relation. */
module OneBookmark {
  import opened Wrappers
  import opened Patterns

  predicate AllStars(es: seq<Element>) {
    forall e | e in es :: e.Star?
  }

  datatype Move = Accept | Reject | Mark | Eat

  function Advance(v: Env, es: seq<Element>, s: string, j: nat): Move
    requires j <= |s|
  {
    if j == |s| then
      if AllStars(es) then Accept else Reject
    else if es == [] || Blocked(v, es[0], s, j) then
      Reject
    else if es[0].Star? then
      Mark
    else if Takes(v, es[0], s[j]) then
      Eat
    else
      Reject
  }

  datatype Bookmark = Bookmark(es: seq<Element>, at: nat)

  /** The elements between the bookmark and here were matched one character each. */
  ghost predicate Straight(v: Env, mid: seq<Element>, s: string, j: nat) {
    && j + |mid| <= |s|
    && forall t | 0 <= t < |mid| ::
         !mid[t].Star? && !Blocked(v, mid[t], s, j + t) && Takes(v, mid[t], s[j + t])
  }

  ghost predicate Linked(v: Env, es: seq<Element>, s: string, j: nat, b: Bookmark) {
    && b.at <= j <= |s|
    && j - b.at <= |b.es|
    && es == b.es[j - b.at..]
    && Straight(v, b.es[..j - b.at], s, b.at)
  }

  function Run(v: Env, es: seq<Element>, s: string, j: nat, star: Option<Bookmark>): bool
    requires j <= |s|
    requires star.Some? ==> |es| <= |star.value.es| && star.value.at <= |s|
    decreases if star.Some? then |star.value.es| else |es| + 1,
              if star.Some? then |s| - star.value.at else 0, |es|
  {
    match Advance(v, es, s, j)
    case Accept => true
    case Mark => Run(v, es[1..], s, j, Some(Bookmark(es[1..], j)))
    case Eat => Run(v, es[1..], s, j + 1, star)
    case Reject =>
      if star.Some? && star.value.at < |s| && !Slash(v, s[star.value.at]) then
        var b := Bookmark(star.value.es, star.value.at + 1);
        Run(v, b.es, s, b.at, Some(b))
      else
        false
  }

  /** Some extension of the bookmarked Star leads to a match. */
  ghost predicate Late(v: Env, b: Bookmark, s: string)
    requires b.at <= |s|
  {
    exists k :: b.at <= k <= |s| && Free(v, s, b.at, k) && Matches(v, b.es, s, k)
  }

  lemma {:induction false} AllStarsMatchNothing(v: Env, es: seq<Element>, s: string)
    ensures Matches(v, es, s, |s|) <==> AllStars(es)
    decreases |es|
  {
    if es != [] {
      AllStarsMatchNothing(v, es[1..], s);
      if es[0].Star? {
        assert Free(v, s, |s|, |s|);
      }
    }
  }

  /** A star-free stretch is matched in one way only: one character per element. */
  lemma {:induction false} StarFreeIsStraight(v: Env, mid: seq<Element>, es: seq<Element>, s: string, j: nat)
    requires j <= |s| && forall e | e in mid :: !e.Star?
    ensures Matches(v, mid + es, s, j) <==> Straight(v, mid, s, j) && Matches(v, es, s, j + |mid|)
    decreases |mid|
  {
    if mid == [] {
      assert mid + es == es;
    } else {
      assert (mid + es)[1..] == mid[1..] + es;
      if j < |s| {
        StarFreeIsStraight(v, mid[1..], es, s, j + 1);
        if Straight(v, mid[1..], s, j + 1) && !Blocked(v, mid[0], s, j) && Takes(v, mid[0], s[j]) {
          forall t | 0 <= t < |mid|
            ensures !mid[t].Star? && !Blocked(v, mid[t], s, j + t) && Takes(v, mid[t], s[j + t])
          {
            assert t > 0 ==> mid[t] == mid[1..][t - 1];
          }
        }
        if Straight(v, mid, s, j) {
          forall t | 0 <= t < |mid[1..]|
            ensures !Blocked(v, mid[1..][t], s, j + 1 + t) && Takes(v, mid[1..][t], s[j + 1 + t])
          {
            assert mid[1..][t] == mid[t + 1];
          }
        }
      }
    }
  }

  /** Nothing between j and the end of the stretch at k is a '/': an element that takes one takes
      another one k - j to the left. */
  lemma {:induction false} NoSlash(v: Env, mid: seq<Element>, s: string, j: nat, k: nat, t: nat)
    requires j < k && Straight(v, mid, s, j) && Straight(v, mid, s, k) && Free(v, s, j, k)
    requires j <= t < k + |mid|
    ensures !Slash(v, s[t])
    decreases t
  {
    if t >= k && Slash(v, s[t]) {
      assert Takes(v, mid[t - k], s[k + (t - k)]);
      assert Takes(v, mid[t - k], s[j + (t - k)]);
      NoSlash(v, mid, s, j, k, t - (k - j));
    }
  }

  /** The shift: if a stretch matches at j and also further right, at k, and an earlier Star could
      absorb what lies between, then a Star after the stretch can absorb the same distance. */
  lemma Shift(v: Env, mid: seq<Element>, s: string, j: nat, k: nat)
    requires j <= k && Straight(v, mid, s, j) && Straight(v, mid, s, k) && Free(v, s, j, k)
    ensures Free(v, s, j + |mid|, k + |mid|)
  {
    if j < k {
      forall t | j <= t < k + |mid| ensures !Slash(v, s[t]) {
        NoSlash(v, mid, s, j, k, t);
      }
    }
  }

  lemma {:induction false} RunDecides(v: Env, es: seq<Element>, s: string, j: nat, star: Option<Bookmark>)
    requires j <= |s|
    requires star.Some? ==> Linked(v, es, s, j, star.value)
    ensures Run(v, es, s, j, star) <==> if star.None? then Matches(v, es, s, j) else Late(v, star.value, s)
    decreases if star.Some? then |star.value.es| else |es| + 1,
              if star.Some? then |s| - star.value.at else 0, |es|
  {
    if star.Some? {
      LinkedMatch(v, es, s, j, star.value);
    }
    AllStarsMatchNothing(v, es, s);
    match Advance(v, es, s, j)
    case Accept =>
      if star.Some? {
        assert Free(v, s, star.value.at, star.value.at);
      }
    case Mark =>
      RunDecides(v, es[1..], s, j, Some(Bookmark(es[1..], j)));
      if star.Some? {
        NewStarSuffices(v, es, s, j, star.value);
      }
    case Eat =>
      if star.Some? {
        LinkedEat(v, es, s, j, star.value);
      }
      RunDecides(v, es[1..], s, j + 1, star);
    case Reject =>
      if star.Some? {
        var b := star.value;
        Extend(v, b, s);
        if b.at < |s| && !Slash(v, s[b.at]) {
          RunDecides(v, b.es, s, b.at + 1, Some(Bookmark(b.es, b.at + 1)));
        }
      }
  }

  lemma LinkedEat(v: Env, es: seq<Element>, s: string, j: nat, b: Bookmark)
    requires Linked(v, es, s, j, b) && Advance(v, es, s, j).Eat?
    ensures Linked(v, es[1..], s, j + 1, b)
  {
    var m := j - b.at;
    assert b.es[..m + 1] == b.es[..m] + [es[0]];
    assert b.es[m + 1..] == es[1..];
  }

  lemma LinkedMatch(v: Env, es: seq<Element>, s: string, j: nat, b: Bookmark)
    requires Linked(v, es, s, j, b)
    ensures Matches(v, b.es, s, b.at) <==> Matches(v, es, s, j)
  {
    var mid := b.es[..j - b.at];
    assert b.es == mid + es;
    StarFreeIsStraight(v, mid, es, s, b.at);
  }

  lemma Extend(v: Env, b: Bookmark, s: string)
    requires b.at <= |s| && !Matches(v, b.es, s, b.at)
    ensures Late(v, b, s) <==> b.at < |s| && !Slash(v, s[b.at]) && Late(v, Bookmark(b.es, b.at + 1), s)
  {
    if Late(v, b, s) {
      var k :| b.at <= k <= |s| && Free(v, s, b.at, k) && Matches(v, b.es, s, k);
      assert Free(v, s, b.at + 1, k);
      assert !Slash(v, s[b.at]);
    }
    if b.at < |s| && !Slash(v, s[b.at]) && Late(v, Bookmark(b.es, b.at + 1), s) {
      var k :| b.at + 1 <= k <= |s| && Free(v, s, b.at + 1, k) && Matches(v, b.es, s, k);
      assert Free(v, s, b.at, k);
    }
  }

  /** Whatever an extension of the earlier Star could recover, the nearer Star recovers too. */
  lemma NewStarSuffices(v: Env, es: seq<Element>, s: string, j: nat, b: Bookmark)
    requires Linked(v, es, s, j, b) && Advance(v, es, s, j).Mark?
    ensures Late(v, b, s) <==> Late(v, Bookmark(es[1..], j), s)
  {
    LinkedMatch(v, es, s, j, b);
    if Late(v, Bookmark(es[1..], j), s) {
      assert Matches(v, es, s, j);
      assert Free(v, s, b.at, b.at);
    }
    if Late(v, b, s) {
      var k :| b.at <= k <= |s| && Free(v, s, b.at, k) && Matches(v, b.es, s, k);
      var mid := b.es[..j - b.at];
      assert b.es == mid + es;
      StarFreeIsStraight(v, mid, es, s, k);
      var n := k + |mid|;
      Shift(v, mid, s, b.at, k);
      var k' :| n <= k' <= |s| && Free(v, s, n, k') && Matches(v, es[1..], s, k');
      assert Free(v, s, j, k');
    }
  }
}
