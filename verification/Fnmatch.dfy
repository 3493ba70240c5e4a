/** path_fnmatch: the iterative matcher over the characters of pattern and string, and its
    agreement with the matching relation. */
module Fnmatch {
  import opened Wrappers
  import opened Patterns
  import opened Brackets
  import O = OneBookmark

  /** The element at i, which is not '*', against c: where the pattern goes on. */
  function Step(v: Env, p: string, i: nat, c: char): (r: Option<nat>)
    requires i < |p|
    ensures r.Some? ==> i < r.value <= |p|
  {
    if p[i] == '[' && HasClose(v, p, i) then
      if Slash(v, c) then None
      else
        var start := Start(p, i);
        if start > |p| then None else Scan(v, p, start, start, start == i + 2, c)
    else if p[i] == '\\' && !v.noescape then
      if i + 1 < |p| && p[i + 1] == c then Some(i + 2) else None
    else if p[i] == '?' then
      if Slash(v, c) then None else Some(i + 1)
    else if p[i] == c then Some(i + 1)
    else None
  }

  /** A leading period that the pattern at i may not match. */
  predicate PeriodStops(v: Env, p: string, i: nat, s: string, j: nat)
    requires i < |p| && j < |s|
  {
    && s[j] == '.' && p[i] != '.' && v.period
    && !(p[i] == '\\' && !v.noescape && i + 1 < |p| && p[i + 1] == '.')
    && (j == 0 || (v.pathname && s[j - 1] == '/'))
  }

  predicate OnlyStars(p: string, i: nat) {
    forall t | i <= t < |p| :: p[t] == '*'
  }

  datatype Move = Accept | Reject | Mark | To(i: nat)

  function Advance(v: Env, p: string, i: nat, s: string, j: nat): (m: Move)
    requires i <= |p| && j <= |s|
    ensures m.To? ==> i < m.i <= |p| && j < |s|
    ensures m.Mark? ==> i < |p| && j < |s|
  {
    if j == |s| then
      if OnlyStars(p, i) then Accept else Reject
    else if i == |p| || PeriodStops(v, p, i, s, j) then
      Reject
    else if p[i] == '*' then
      Mark
    else match Step(v, p, i, s[j])
      case Some(n) => To(n)
      case None => Reject
  }

  /** Where the last '*' ends in the pattern, and up to where it has absorbed the string. */
  datatype Bookmark = Bookmark(i: nat, j: nat)

  /** What the matcher does from pattern position i and string position j on. */
  function Run(v: Env, p: string, i: nat, s: string, j: nat, star: Option<Bookmark>): bool
    requires i <= |p| && j <= |s|
    requires star.Some? ==> star.value.i <= i && star.value.j <= j
    decreases if star.Some? then |p| - star.value.i else |p| - i + 1,
              if star.Some? then |s| - star.value.j else 0, |p| - i, 1
  {
    match Advance(v, p, i, s, j)
    case Accept => true
    case Mark => Run(v, p, i + 1, s, j, Some(Bookmark(i + 1, j)))
    case To(n) => Run(v, p, n, s, j + 1, star)
    case Reject => Retry(v, p, s, star)
  }

  function Retry(v: Env, p: string, s: string, star: Option<Bookmark>): bool
    requires star.Some? ==> star.value.i <= |p| && star.value.j <= |s|
    decreases if star.Some? then |p| - star.value.i else 0,
              if star.Some? then |s| - star.value.j else 0, 0, 0
  {
    if star.Some? && star.value.j < |s| && !Slash(v, s[star.value.j]) then
      var b := Bookmark(star.value.i, star.value.j + 1);
      Run(v, p, b.i, s, b.j, Some(b))
    else
      false
  }

  /** What path_fnmatch answers. */
  function Accepts(v: Env, p: string, s: string): bool {
    Run(v, p, 0, s, 0, None)
  }

  /** The pattern from i on as elements. */
  function Elements(v: Env, p: string, i: nat): seq<Element>
    requires i <= |p|
    decreases |p| - i
  {
    if i == |p| then []
    else if p[i] == '*' then [Star] + Elements(v, p, i + 1)
    else if p[i] == '?' then [AnyChar] + Elements(v, p, i + 1)
    else if p[i] == '\\' && !v.noescape then
      if i + 1 < |p| then [Lit(p[i + 1])] + Elements(v, p, i + 2) else [Dead]
    else if p[i] == '[' then
      match Body(v, p, Start(p, i), Start(p, i))
      case Some((ms, close)) => [Set(ms, Start(p, i) == i + 2)] + Elements(v, p, close + 1)
      case None => [Lit('[')] + Elements(v, p, i + 1)
    else [Lit(p[i])] + Elements(v, p, i + 1)
  }

  /** Every bracket expression from i on is read right. */
  ghost predicate WellFormed(v: Env, p: string, i: nat)
    requires i <= |p|
    decreases |p| - i
  {
    if i == |p| then true
    else if p[i] == '\\' && !v.noescape then i + 1 == |p| || WellFormed(v, p, i + 2)
    else if p[i] == '[' then Right(v, p, i) && WellFormed(v, p, Behind(v, p, i))
    else WellFormed(v, p, i + 1)
  }

  /** Where the pattern goes on behind the '[' at i or the bracket expression it begins. */
  function Behind(v: Env, p: string, i: nat): (n: nat)
    requires i < |p|
    ensures i < n <= |p|
  {
    match Body(v, p, Start(p, i), Start(p, i))
    case Some((ms, close)) => close + 1
    case None => i + 1
  }

  /** The same by looks: no first member of a bracket expression is escaped or a subexpression, and
      no range in one ends in a backslash or the '[' of a subexpression. */
  predicate Tidied(v: Env, p: string, i: nat)
    requires i <= |p|
    decreases |p| - i
  {
    if i == |p| then true
    else if p[i] == '\\' && !v.noescape then i + 1 == |p| || Tidied(v, p, i + 2)
    else if p[i] == '[' then Tidy(v, p, Start(p, i), Start(p, i)) && Tidied(v, p, Behind(v, p, i))
    else Tidied(v, p, i + 1)
  }

  lemma {:induction false} TidiedIsWellFormed(v: Env, p: string, i: nat)
    requires i <= |p| && Tidied(v, p, i)
    ensures WellFormed(v, p, i)
    decreases |p| - i
  {
    hide Tidy, Right, Behind;
    if i < |p| {
      if p[i] == '\\' && !v.noescape {
        if i + 1 < |p| {
          TidiedIsWellFormed(v, p, i + 2);
        }
      } else if p[i] == '[' {
        TidyIsRight(v, p, i);
        TidiedIsWellFormed(v, p, Behind(v, p, i));
      } else {
        TidiedIsWellFormed(v, p, i + 1);
      }
    }
  }

  /** What the '[' at i stands for, against c: where the pattern goes on. */
  function Meant(v: Env, p: string, i: nat, c: char): Option<nat>
    requires i < |p|
  {
    var start := Start(p, i);
    match Body(v, p, start, start)
    case Some((ms, close)) => if Takes(v, Set(ms, start == i + 2), c) then Some(close + 1) else None
    case None => if c == '[' then Some(i + 1) else None
  }

  /** The exact condition for the '[' at i: the matcher does what it stands for, on every character,
      if and only if it is read right. */
  lemma BracketIsRight(v: Env, p: string, i: nat)
    requires i < |p| && p[i] == '['
    ensures Right(v, p, i) <==> forall c :: Step(v, p, i, c) == Meant(v, p, i, c)
  {
    hide SkipsRight, ClosesFrom;
    var start := Start(p, i);
    var body := Body(v, p, start, start);
    if !HasClose(v, p, i) || body.None? {
      assert Step(v, p, i, '[') == Meant(v, p, i, '[') <==> !HasClose(v, p, i) && body.None?;
    } else if start == i + 2 {
      forall c ensures Step(v, p, i, c) == Meant(v, p, i, c) {
        ScanNegated(v, p, start, start, c);
      }
    } else if SkipsRight(v, p, start, start, [], body.value.1) {
      forall c ensures Step(v, p, i, c) == Meant(v, p, i, c) {
        if !Slash(v, c) {
          ScanMeans(v, p, start, start, [], c);
        }
      }
    } else {
      var c := ScanGoesWrong(v, p, start, start, []);
      assert Step(v, p, i, c) != Meant(v, p, i, c);
    }
  }

  /** One element of a well-formed pattern, against one character. */
  lemma StepMeans(v: Env, p: string, i: nat, c: char)
    requires i < |p| && p[i] != '*' && WellFormed(v, p, i)
    ensures var es := Elements(v, p, i);
            && es != [] && !es[0].Star?
            && (Step(v, p, i, c).Some? <==> Takes(v, es[0], c))
            && (Step(v, p, i, c).Some? ==>
                  && WellFormed(v, p, Step(v, p, i, c).value)
                  && Elements(v, p, Step(v, p, i, c).value) == es[1..])
  {
    hide Right;
    if p[i] == '[' {
      BracketIsRight(v, p, i);
      assert Step(v, p, i, c) == Meant(v, p, i, c);
    }
  }

  lemma {:induction false} OnlyStarsMeans(v: Env, p: string, i: nat)
    requires i <= |p|
    ensures OnlyStars(p, i) <==> O.AllStars(Elements(v, p, i))
    decreases |p| - i
  {
    if i < |p| {
      var es := Elements(v, p, i);
      if p[i] == '*' {
        OnlyStarsMeans(v, p, i + 1);
        assert forall e :: e in es <==> e == Star || e in es[1..];
      } else {
        assert !es[0].Star? && es[0] in es;
      }
    }
  }

  ghost function Above(v: Env, p: string, star: Option<Bookmark>): Option<O.Bookmark>
    requires star.Some? ==> star.value.i <= |p|
  {
    match star
    case Some(b) => Some(O.Bookmark(Elements(v, p, b.i), b.j))
    case None => None
  }

  ghost predicate Fits(v: Env, p: string, i: nat, s: string, j: nat, star: Option<Bookmark>) {
    && i <= |p| && j <= |s| && WellFormed(v, p, i)
    && (star.Some? ==>
          && star.value.i <= i && star.value.j <= j
          && WellFormed(v, p, star.value.i)
          && |Elements(v, p, i)| <= |Elements(v, p, star.value.i)|)
  }

  ghost function MoveAbove(m: Move): O.Move {
    match m
    case Accept => O.Accept
    case Reject => O.Reject
    case Mark => O.Mark
    case To(_) => O.Eat
  }

  lemma SameMove(v: Env, p: string, i: nat, s: string, j: nat)
    requires i <= |p| && j <= |s| && WellFormed(v, p, i)
    ensures var es := Elements(v, p, i);
            var m := Advance(v, p, i, s, j);
            && O.Advance(v, es, s, j) == MoveAbove(m)
            && (m.Mark? || m.To? ==> es != [])
            && (m.Mark? ==> WellFormed(v, p, i + 1) && Elements(v, p, i + 1) == es[1..])
            && (m.To? ==> WellFormed(v, p, m.i) && Elements(v, p, m.i) == es[1..])
  {
    if j == |s| {
      OnlyStarsMeans(v, p, i);
    } else if i < |p| && p[i] != '*' {
      StepMeans(v, p, i, s[j]);
    }
  }

  /** The character-level matcher goes through the same moves as the element-level one. */
  lemma {:induction false} SameRun(v: Env, p: string, i: nat, s: string, j: nat, star: Option<Bookmark>)
    requires Fits(v, p, i, s, j, star)
    ensures Run(v, p, i, s, j, star) == O.Run(v, Elements(v, p, i), s, j, Above(v, p, star))
    decreases if star.Some? then |p| - star.value.i else |p| - i + 1,
              if star.Some? then |s| - star.value.j else 0, |p| - i
  {
    hide Advance, O.Advance, Elements, WellFormed;
    SameMove(v, p, i, s, j);
    match Advance(v, p, i, s, j)
    case Accept =>
    case Mark => SameRun(v, p, i + 1, s, j, Some(Bookmark(i + 1, j)));
    case To(n) => SameRun(v, p, n, s, j + 1, star);
    case Reject =>
      if star.Some? && star.value.j < |s| && !Slash(v, s[star.value.j]) {
        var b := Bookmark(star.value.i, star.value.j + 1);
        SameRun(v, p, b.i, s, b.j, Some(b));
      }
  }

  /** One bookmark is enough: on well-formed patterns the matcher decides the matching relation. */
  lemma MatcherDecides(v: Env, p: string, s: string)
    requires WellFormed(v, p, 0)
    ensures Accepts(v, p, s) <==> Matches(v, Elements(v, p, 0), s, 0)
  {
    SameRun(v, p, 0, s, 0, None);
    O.RunDecides(v, Elements(v, p, 0), s, 0, None);
  }

  /** In particular where every bracket expression is tidy. */
  lemma TidyDecides(v: Env, p: string, s: string)
    requires Tidied(v, p, 0)
    ensures Accepts(v, p, s) <==> Matches(v, Elements(v, p, 0), s, 0)
  {
    TidiedIsWellFormed(v, p, 0);
    MatcherDecides(v, p, s);
  }

  /** p is one bracket expression, of these members. */
  predicate IsBracket(v: Env, p: string, ms: seq<Member>) {
    && p != "" && p[0] == '['
    && Body(v, p, Start(p, 0), Start(p, 0)) == Some((ms, |p| - 1))
  }

  function TheSet(p: string, ms: seq<Member>): Element
    requires p != ""
  {
    Set(ms, Start(p, 0) == 2)
  }

  /** For a pattern that is one bracket expression and takes anything at all, the condition is exact:
      the matcher agrees with the matching relation on every string if and only if it is read right. */
  lemma BracketDecides(v: Env, p: string, ms: seq<Member>)
    requires IsBracket(v, p, ms) && !v.period && exists c :: Takes(v, TheSet(p, ms), c)
    ensures Right(v, p, 0) <==> forall s :: Accepts(v, p, s) <==> Matches(v, Elements(v, p, 0), s, 0)
  {
    hide SkipsRight, Matches, Accepts;
    if Right(v, p, 0) {
      assert WellFormed(v, p, 0);
      forall s ensures Accepts(v, p, s) <==> Matches(v, Elements(v, p, 0), s, 0) {
        MatcherDecides(v, p, s);
      }
    } else {
      var c: char;
      if HasClose(v, p, 0) {
        c := ScanGoesWrong(v, p, Start(p, 0), Start(p, 0), []);
      } else {
        c :| Takes(v, TheSet(p, ms), c);
      }
      OneMissed(v, p, ms, c);
    }
  }

  lemma OneMissed(v: Env, p: string, ms: seq<Member>, c: char)
    requires IsBracket(v, p, ms) && !v.period && Takes(v, TheSet(p, ms), c) && Step(v, p, 0, c) != Some(|p|)
    ensures Matches(v, Elements(v, p, 0), [c], 0) && !Accepts(v, p, [c])
  {
    hide Step, Takes;
    assert Elements(v, p, 0) == [TheSet(p, ms)] + Elements(v, p, |p|);
    var next := Step(v, p, 0, c);
    if next.Some? {
      assert p[|p| - 1] == ']' && !OnlyStars(p, next.value);
      assert Advance(v, p, 0, [c], 0) == To(next.value);
      assert !Run(v, p, next.value, [c], 1, None);
    } else {
      assert Advance(v, p, 0, [c], 0).Reject? && !Retry(v, p, [c], None);
    }
  }

  const DEFAULT: Env := Env(false, false, false, (x, y) => x <= y, (_, _) => false, '\0')

  /** Outside the well-formed patterns the two can differ. "[\\]" is the set of one backslash, but
      the scan for its ']' takes the second backslash for an escape, so '[' is a literal. */
  lemma EscapedFirstMember()
    ensures var p, s := "[\\\\]", "\\";
            && !WellFormed(DEFAULT, p, 0)
            && Matches(DEFAULT, Elements(DEFAULT, p, 0), s, 0)
            && !Accepts(DEFAULT, p, s)
  {
    var p, s := "[\\\\]", "\\";
    assert MemberAt(DEFAULT, p, 1) == (One('\\'), 3);
    assert Body(DEFAULT, p, 1, 3) == Some(([], 3));
    assert [One('\\')] + [] == [One('\\')];
    assert Body(DEFAULT, p, 1, 1) == Some(([One('\\')], 3));
    assert ClosesFrom(DEFAULT, p, 2) == ClosesFrom(DEFAULT, p, 4);
    assert Elements(DEFAULT, p, 4) == [];
    var es := Elements(DEFAULT, p, 0);
    assert es == [Set([One('\\')], false)];
    assert Holds(DEFAULT, es[0].members[0], s[0]);
    assert Matches(DEFAULT, es[1..], s, 1);
    assert Step(DEFAULT, p, 0, s[0]) == None;
  }

  /** "[[:alpha:]" has no ']' of its own: it is the literal '[' and then a set of ':', 'a', 'l', 'p'
      and 'h'. The scan stops at the inner ']', and so "[" is taken for a set that holds every
      letter and ends with the pattern. */
  lemma UnclosedClass(v: Env)
    requires v.isClass("alpha", 'q') && !v.noescape && !v.pathname && !v.period
    ensures var p, s := "[[:alpha:]", "q";
            && !WellFormed(v, p, 0)
            && !Matches(v, Elements(v, p, 0), s, 0)
            && Accepts(v, p, s)
  {
    var p, s := "[[:alpha:]", "q";
    assert SubexprEnd(p, 3, ':') == SubexprEnd(p, 6, ':') == SubexprEnd(p, 8, ':') == 10;
    assert p[3..8] == "alpha";
    assert MemberAt(v, p, 1) == (Class("alpha"), 10);
    assert Body(v, p, 1, 1) == None;
    assert SubexprAt(p, 2) == 0;
    assert ClosesFrom(v, p, 2) == ClosesFrom(v, p, 4) == ClosesFrom(v, p, 6) == ClosesFrom(v, p, 8) == ClosesFrom(v, p, 9);
    assert HasClose(v, p, 0);
    var es := Elements(v, p, 0);
    assert es[0] == Lit('[');
    assert Holds(v, Class("alpha"), 'q');
    assert Step(v, p, 0, s[0]) == Some(10);
    assert Advance(v, p, 0, s, 0) == To(10);
  }

  /** An odd end point does no harm where the scan comes back in step: "[xA-\a]" is read right. */
  lemma OddButRight()
    ensures WellFormed(DEFAULT, "[xA-\\a]", 0) && !Tidied(DEFAULT, "[xA-\\a]", 0)
  {
    var p := "[xA-\\a]";
    assert MemberAt(DEFAULT, p, 1) == (One('x'), 2);
    assert MemberAt(DEFAULT, p, 2) == (Range('A', '\\'), 5);
    assert MemberAt(DEFAULT, p, 5) == (One('a'), 6);
    assert Body(DEFAULT, p, 1, 6) == Some(([], 6));
    assert Body(DEFAULT, p, 1, 5).value.1 == 6;
    assert Body(DEFAULT, p, 1, 2).value.1 == 6;
    assert Skip(DEFAULT, p, 2) == Skip(DEFAULT, p, 4) == Skip(DEFAULT, p, 6) == 7;
    assert Skip(DEFAULT, p, 5) == 7;
    assert forall before :: SkipsRight(DEFAULT, p, 1, 6, before, 6);
    assert forall before :: SkipsRight(DEFAULT, p, 1, 5, before, 6);
    assert forall before :: SkipsRight(DEFAULT, p, 1, 2, before, 6);
    assert ClosesFrom(DEFAULT, p, 2) == ClosesFrom(DEFAULT, p, 4) == ClosesFrom(DEFAULT, p, 6);
    assert Right(DEFAULT, p, 0);
    assert !PlainEnd(DEFAULT, p, 2);
    assert !Tidy(DEFAULT, p, 1, 2);
    assert !Tidy(DEFAULT, p, 1, 1);
  }

  /** "[xA-\]b]" is 'x' or a character from 'A' to '\', then "b]". Once 'x' has matched, the rest
      of the set is skipped as if "\]" were an escape, past "b]". */
  lemma EscapeAsRangeEnd()
    ensures var p, s := "[xA-\\]b]", "xb]";
            && !WellFormed(DEFAULT, p, 0)
            && Matches(DEFAULT, Elements(DEFAULT, p, 0), s, 0)
            && !Accepts(DEFAULT, p, s)
  {
    var p, s := "[xA-\\]b]", "xb]";
    var ms := [One('x'), Range('A', '\\')];
    assert MemberAt(DEFAULT, p, 1) == (One('x'), 2);
    assert MemberAt(DEFAULT, p, 2) == (Range('A', '\\'), 5);
    assert Body(DEFAULT, p, 1, 5) == Some(([], 5));
    assert [Range('A', '\\')] + [] == ms[1..];
    assert Body(DEFAULT, p, 1, 2) == Some((ms[1..], 5));
    assert [One('x')] + ms[1..] == ms;
    assert Body(DEFAULT, p, 1, 1) == Some((ms, 5));
    assert Skip(DEFAULT, p, 2) == Skip(DEFAULT, p, 4) == Skip(DEFAULT, p, 6) == 8;
    assert Holds(DEFAULT, ms[0], 'x') && !Slash(DEFAULT, 'x') && !AnyHolds(DEFAULT, [], 'x');
    assert !SkipsRight(DEFAULT, p, 1, 1, [], 5);
    assert Elements(DEFAULT, p, 7) == [Lit(']')];
    assert Elements(DEFAULT, p, 6) == [Lit('b'), Lit(']')];
    var es := Elements(DEFAULT, p, 0);
    assert es == [Set(ms, false)] + [Lit('b'), Lit(']')];
    assert Holds(DEFAULT, ms[0], s[0]);
    assert Matches(DEFAULT, es[1..][1..][1..], s, 3);
    assert Matches(DEFAULT, es[1..][1..], s, 2);
    assert Matches(DEFAULT, es[1..], s, 1);
    assert Skip(DEFAULT, p, 6) == Skip(DEFAULT, p, 7) == 8;
    assert Skip(DEFAULT, p, 2) == Skip(DEFAULT, p, 3) == Skip(DEFAULT, p, 4) == Skip(DEFAULT, p, 6);
    assert ClosesFrom(DEFAULT, p, 6) && ClosesFrom(DEFAULT, p, 4) && ClosesFrom(DEFAULT, p, 2);
    assert Step(DEFAULT, p, 0, s[0]) == Some(8);
    assert !Run(DEFAULT, p, 8, s, 1, None);
  }

  /** path_fnmatch_subexpr_len. */
  method SubexprLen(p: string, k: nat, delim: char) returns (n: nat)
    requires k <= |p|
    ensures n == if SubexprEnd(p, k + 2, delim) == 0 then 0 else SubexprEnd(p, k + 2, delim) - k
  {
    var i := 2;
    while i + 1 < |p| - k
      invariant i >= 2
      invariant SubexprEnd(p, k + 2, delim) == SubexprEnd(p, k + i, delim)
    {
      if p[k + i] == delim && p[k + i + 1] == ']' {
        return i + 2;
      }
      i := i + 1;
    }
    return 0;
  }

  /** path_fnmatch_has_close. */
  method HasCloseScan(v: Env, p: string, i: nat) returns (r: bool)
    requires i < |p|
    ensures r == HasClose(v, p, i)
  {
    var j := i + 1;
    if j < |p| && p[j] == '!' {
      j := j + 1;
    }
    j := j + 1;
    while j < |p|
      invariant HasClose(v, p, i) == ClosesFrom(v, p, j)
      decreases |p| - j
    {
      if p[j] == '\\' && !v.noescape {
        j := j + 2;
      } else {
        var n := 0;
        if p[j] == '[' && j + 1 < |p| && Opener(p[j + 1]) {
          n := SubexprLen(p, j, p[j + 1]);
        }
        if n != 0 {
          j := j + n;
        } else if p[j] == ']' {
          return true;
        } else {
          j := j + 1;
        }
      }
    }
    return false;
  }

  /** The loop that skips the rest of a bracket expression once a member has matched. */
  method SkipToClose(v: Env, p: string, from: nat) returns (k: nat)
    requires from <= |p|
    ensures k == Skip(v, p, from)
  {
    k := from;
    while k < |p| && p[k] != ']'
      invariant k <= |p|
      invariant Skip(v, p, from) == Skip(v, p, k)
      decreases |p| - k
    {
      if p[k] == '\\' && k + 1 < |p| && !v.noescape {
        k := k + 1;
      } else if p[k] == '[' && k + 1 < |p| && Opener(p[k + 1]) {
        var n := SubexprLen(p, k, p[k + 1]);
        if n != 0 {
          k := k + n;
          continue;
        }
      }
      k := k + 1;
    }
    if k < |p| {
      k := k + 1;
    }
  }

  /** One member: whether c is in it, and where the next one begins. */
  method OneMember(v: Env, p: string, k: nat, c: char) returns (res: bool, m: nat)
    requires k < |p|
    ensures m == MemberAt(v, p, k).1 && res == Holds(v, MemberAt(v, p, k).0, c)
  {
    res, m := false, k;
    var escaped := p[k] == '\\' && k + 1 < |p| && !v.noescape;
    if escaped {
      m := m + 1;
    }
    if !escaped && p[m] == '[' && m + 1 < |p| && Opener(p[m + 1]) {
      var delim := p[m + 1];
      var sublen := SubexprLen(p, m, delim);
      if sublen == 0 {
        res, m := p[m] == c, m + 1;
      } else if delim == ':' {
        res, m := Holds(v, Class(p[m + 2..m + sublen - 2]), c), m + sublen;
      } else {
        if sublen - 4 == 1 {
          match RangeEnd(p, m + sublen) {
            case Some((hi, n)) =>
              res, m := v.le(p[m + 2], c) && v.le(c, hi), n;
            case None =>
              res, m := p[m + 2] == c, m + sublen;
          }
        } else {
          m := m + sublen;
        }
      }
    } else {
      var range := if escaped then None else RangeEnd(p, m + 1);
      match range {
        case Some((hi, n)) =>
          res, m := v.le(p[m], c) && v.le(c, hi), n;
        case None =>
          res, m := p[m] == c, m + 1;
      }
    }
  }

  /** The loop over the members of the bracket expression at i: where the pattern goes on if c
      matches it. */
  method ScanMembers(v: Env, p: string, i: nat, c: char) returns (r: Option<nat>)
    requires i < |p| && p[i] == '[' && HasClose(v, p, i)
    ensures r == if Slash(v, c) then None
                 else Scan(v, p, Start(p, i), Start(p, i), Start(p, i) == i + 2, c)
  {
    var k := i + 1;
    if Slash(v, c) {
      return None;
    }
    var negated := p[k] == '!';
    if negated {
      k := k + 1;
    }
    var start := k;
    while k < |p|
      invariant start <= k <= |p|
      invariant Scan(v, p, start, start, negated, c) == Scan(v, p, start, k, negated, c)
      decreases |p| - k
    {
      if p[k] == ']' && k != start {
        return None;
      }
      var res, m := OneMember(v, p, k, c);
      if (res && !negated) || (!res && negated && At(v, p, m) == ']') {
        var n := SkipToClose(v, p, m);
        return Some(n);
      } else if res && negated {
        return None;
      }
      k := m;
    }
    return None;
  }

  /** The switch on the pattern character, '*' apart: where the pattern goes on if c matches. */
  method MatchOne(v: Env, p: string, i: nat, c: char) returns (next: Option<nat>)
    requires i < |p| && p[i] != '*'
    ensures next == Step(v, p, i, c)
  {
    var at := i;
    if p[i] == '[' {
      var closed := HasCloseScan(v, p, i);
      if closed {
        next := ScanMembers(v, p, i, c);
        return;
      }
    } else if p[i] == '\\' && !v.noescape {
      at := i + 1;
      if at == |p| {
        return None;
      }
    } else if p[i] == '?' {
      return if Slash(v, c) then None else Some(i + 1);
    }
    return if p[at] == c then Some(at + 1) else None;
  }

  /** path_fnmatch; true for a match. */
  method PathFnmatch(v: Env, p: string, s: string) returns (r: bool)
    ensures r == Accepts(v, p, s)
    ensures WellFormed(v, p, 0) ==> (r <==> Matches(v, Elements(v, p, 0), s, 0))
  {
    hide Step, Matches, WellFormed, Elements;
    if WellFormed(v, p, 0) {
      MatcherDecides(v, p, s);
    }
    var i: nat, j: nat := 0, 0;
    var star: Option<Bookmark> := None;
    var notfirst := false;
    while true
      invariant i <= |p| && j <= |s|
      invariant star.Some? ==> star.value.i <= i && star.value.j <= j
      invariant j > 0 || star.Some? ==> notfirst
      invariant notfirst && j == 0 && |s| > 0 ==> !(v.period && s[0] == '.')
      invariant Accepts(v, p, s) == Run(v, p, i, s, j, star)
      decreases if star.Some? then |p| - star.value.i else |p| - i + 1,
                if star.Some? then |s| - star.value.j else 0, |p| - i
    {
      var next: Option<nat> := None;
      if j == |s| {
        var k := i;
        while k < |p| && p[k] == '*'
          invariant i <= k <= |p|
          invariant forall t | i <= t < k :: p[t] == '*'
        {
          k := k + 1;
        }
        if k == |p| {
          return true;
        }
      } else if i < |p| {
        var stop := s[j] == '.' && p[i] != '.' && v.period
                    && !(p[i] == '\\' && !v.noescape && i + 1 < |p| && p[i + 1] == '.')
                    && (!notfirst || (v.pathname && s[j - 1] == '/'));
        assert stop == PeriodStops(v, p, i, s, j);
        if !stop {
          notfirst := true;
          if p[i] == '*' {
            // a run of '*' is one '*'
            i := i + 1;
            while i < |p| && p[i] == '*'
              invariant i <= |p|
              invariant Accepts(v, p, s) == Run(v, p, i, s, j, Some(Bookmark(i, j)))
            {
              i := i + 1;
            }
            star := Some(Bookmark(i, j));
            continue;
          }
          next := MatchOne(v, p, i, s[j]);
        }
      }
      if next.Some? {
        i, j := next.value, j + 1;
      } else if star.Some? && star.value.j < |s| && !Slash(v, s[star.value.j]) {
        star := Some(Bookmark(star.value.i, star.value.j + 1));
        i, j := star.value.i, star.value.j;
      } else {
        return false;
      }
    }
  }
}
