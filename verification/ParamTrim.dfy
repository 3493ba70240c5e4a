/** ${v%p}, ${v%%p}, ${v#p} and ${v##p}: cutting a suffix or a prefix that matches a pattern off a
    value. */
module ParamTrim {
  import opened Patterns
  import opened Fnmatch

  /** s is cut at i: a related suffix starts at i, the shortest one; or none is related. */
  ghost predicate ShortestSuffix(related: string -> bool, s: string, i: nat) {
    && i <= |s|
    && (related(s[i..]) || i == |s|)
    && forall k | 0 <= k <= |s| && related(s[k..]) :: related(s[i..]) && k <= i
  }

  ghost predicate LongestSuffix(related: string -> bool, s: string, i: nat) {
    && i <= |s|
    && (related(s[i..]) || i == |s|)
    && forall k | 0 <= k <= |s| && related(s[k..]) :: related(s[i..]) && i <= k
  }

  ghost predicate ShortestPrefix(related: string -> bool, s: string, i: nat) {
    && i <= |s|
    && (related(s[..i]) || i == 0)
    && forall k | 0 <= k <= |s| && related(s[..k]) :: related(s[..i]) && i <= k
  }

  ghost predicate LongestPrefix(related: string -> bool, s: string, i: nat) {
    && i <= |s|
    && (related(s[..i]) || i == 0)
    && forall k | 0 <= k <= |s| && related(s[..k]) :: related(s[..i]) && k <= i
  }

  /** The flags of parameter expansion: none. */
  function Plain(v: Env): Env {
    v.(pathname := false, noescape := false, period := false)
  }

  ghost function Related(v: Env, p: string): string -> bool {
    t => Matches(Plain(v), Elements(Plain(v), p, 0), t, 0)
  }

  ghost function Accepted(v: Env, p: string): string -> bool {
    t => Accepts(Plain(v), p, t)
  }

  lemma AcceptedIsRelated(v: Env, p: string)
    requires WellFormed(Plain(v), p, 0)
    ensures forall t :: Accepted(v, p)(t) == Related(v, p)(t)
  {
    forall t ensures Accepted(v, p)(t) == Related(v, p)(t) {
      MatcherDecides(Plain(v), p, t);
    }
  }

  /** What the shorter operator removes is contained in what the longer one removes, and the cut
      is unique. */
  lemma ShorterInLonger(related: string -> bool, s: string, i: nat, j: nat)
    ensures ShortestSuffix(related, s, i) && LongestSuffix(related, s, j) ==> j <= i
    ensures ShortestPrefix(related, s, i) && LongestPrefix(related, s, j) ==> i <= j
    ensures ShortestSuffix(related, s, i) && ShortestSuffix(related, s, j) ==> i == j
    ensures LongestSuffix(related, s, i) && LongestSuffix(related, s, j) ==> i == j
    ensures ShortestPrefix(related, s, i) && ShortestPrefix(related, s, j) ==> i == j
    ensures LongestPrefix(related, s, i) && LongestPrefix(related, s, j) ==> i == j
  {
    assert s[|s|..] == "" == s[..0];
  }

  /** ${v%p}: the part of s that stays. */
  method RemoveShortestSuffix(v: Env, p: string, s: string) returns (kept: string, ghost cut: nat)
    ensures cut <= |s| && kept == s[..cut]
    ensures s != "" ==> ShortestSuffix(Accepted(v, p), s, cut)
    ensures s != "" && WellFormed(Plain(v), p, 0) ==> ShortestSuffix(Related(v, p), s, cut)
  {
    if s == "" {
      return "", 0;
    }
    if WellFormed(Plain(v), p, 0) {
      AcceptedIsRelated(v, p);
    }
    var i: int := |s|;
    while i >= 0
      invariant -1 <= i <= |s|
      invariant forall k | i < k <= |s| :: !Accepts(Plain(v), p, s[k..])
    {
      var matched := PathFnmatch(Plain(v), p, s[i..]);
      if matched {
        break;
      }
      i := i - 1;
    }
    cut := if i < 0 then |s| else i;
    kept := s[..if i < 0 then |s| else i];
  }

  /** ${v%%p}. */
  method RemoveLongestSuffix(v: Env, p: string, s: string) returns (kept: string, ghost cut: nat)
    ensures cut <= |s| && kept == s[..cut]
    ensures s != "" ==> LongestSuffix(Accepted(v, p), s, cut)
    ensures s != "" && WellFormed(Plain(v), p, 0) ==> LongestSuffix(Related(v, p), s, cut)
  {
    if s == "" {
      return "", 0;
    }
    if WellFormed(Plain(v), p, 0) {
      AcceptedIsRelated(v, p);
    }
    var i := 0;
    while i <= |s|
      invariant 0 <= i <= |s| + 1
      invariant forall k | 0 <= k < i :: !Accepts(Plain(v), p, s[k..])
    {
      var matched := PathFnmatch(Plain(v), p, s[i..]);
      if matched {
        break;
      }
      i := i + 1;
    }
    cut := if i > |s| then |s| else i;
    kept := s[..if i > |s| then |s| else i];
  }

  /** ${v#p}. */
  method RemoveShortestPrefix(v: Env, p: string, s: string) returns (kept: string, ghost cut: nat)
    ensures cut <= |s| && kept == s[cut..]
    ensures s != "" ==> ShortestPrefix(Accepted(v, p), s, cut)
    ensures s != "" && WellFormed(Plain(v), p, 0) ==> ShortestPrefix(Related(v, p), s, cut)
  {
    if s == "" {
      return "", 0;
    }
    if WellFormed(Plain(v), p, 0) {
      AcceptedIsRelated(v, p);
    }
    var i := 0;
    while i <= |s|
      invariant 0 <= i <= |s| + 1
      invariant forall k | 0 <= k < i :: !Accepts(Plain(v), p, s[..k])
    {
      var matched := PathFnmatch(Plain(v), p, s[..i]);
      if matched {
        break;
      }
      i := i + 1;
    }
    if i > |s| {
      i := 0;
    }
    cut, kept := i, s[i..];
  }

  /** ${v##p}. */
  method RemoveLongestPrefix(v: Env, p: string, s: string) returns (kept: string, ghost cut: nat)
    ensures cut <= |s| && kept == s[cut..]
    ensures s != "" ==> LongestPrefix(Accepted(v, p), s, cut)
    ensures s != "" && WellFormed(Plain(v), p, 0) ==> LongestPrefix(Related(v, p), s, cut)
  {
    if s == "" {
      return "", 0;
    }
    if WellFormed(Plain(v), p, 0) {
      AcceptedIsRelated(v, p);
    }
    var i := |s|;
    while i > 0
      invariant 0 <= i <= |s|
      invariant forall k | i < k <= |s| :: !Accepts(Plain(v), p, s[..k])
    {
      var matched := PathFnmatch(Plain(v), p, s[..i]);
      if matched {
        break;
      }
      i := i - 1;
    }
    cut, kept := i, s[i..];
  }
}
