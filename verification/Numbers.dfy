/** Decimal numbers: scanning with a limit, formatting, and their round trip. */
module Numbers {
  import opened Wrappers

  const MAX_UINT64 := 0xFFFF_FFFF_FFFF_FFFF
  const MAX_INT64 := 0x7FFF_FFFF_FFFF_FFFF
  const MAX_UINT32 := 0xFFFF_FFFF
  const MAX_INT32 := 0x7FFF_FFFF

  predicate IsDigit(c: char) { '0' <= c <= '9' }

  function Digit(c: char): (d: nat)
    requires IsDigit(c)
    ensures d < 10
  {
    c as int - '0' as int
  }

  predicate AllDigits(s: string) {
    forall i | 0 <= i < |s| :: IsDigit(s[i])
  }

  function Value(s: string): nat
    requires AllDigits(s)
  {
    if s == [] then 0 else 10 * Value(s[..|s| - 1]) + Digit(s[|s| - 1])
  }

  /** n leading digits of s are worth at most max, and no longer run of them is. */
  ghost predicate IsLongest(s: string, max: nat, n: nat) {
    && Fits(s, max, n)
    && forall j: nat {:trigger Fits(s, max, j)} :: Fits(s, max, j) ==> j <= n
  }

  predicate Fits(s: string, max: nat, n: nat) {
    n <= |s| && AllDigits(s[..n]) && Value(s[..n]) <= max
  }

  lemma {:induction false} LongerIsMore(s: string, i: nat, j: nat)
    requires i <= j <= |s| && AllDigits(s[..j])
    ensures AllDigits(s[..i]) && Value(s[..i]) <= Value(s[..j])
  {
    if i < j {
      assert s[..j][..j - 1] == s[..j - 1];
      LongerIsMore(s, i, j - 1);
    }
  }

  /** Where the next digit does not fit, or there is none, the run is the longest. */
  lemma StopsAtLongest(s: string, max: nat, n: nat)
    requires Fits(s, max, n)
    requires n < |s| && IsDigit(s[n]) ==> 10 * Value(s[..n]) + Digit(s[n]) > max
    ensures IsLongest(s, max, n)
  {
    if n < |s| {
      assert s[..n + 1][..n] == s[..n];
    }
    forall j: nat {:trigger Fits(s, max, j)} | Fits(s, max, j)
      ensures j <= n
    {
      if j > n {
        assert s[..j][n] == s[n];
        LongerIsMore(s, n + 1, j);
      }
    }
  }

  lemma OneMore(s: string, n: nat)
    requires n < |s| && AllDigits(s[..n]) && IsDigit(s[n])
    ensures AllDigits(s[..n + 1]) && Value(s[..n + 1]) == 10 * Value(s[..n]) + Digit(s[n])
  {
    assert s[..n + 1][..n] == s[..n];
  }

  /** Unsigned words of 64 or of 32 bits. */
  function Word(x: nat, wide: bool): (r: nat)
    ensures r <= Largest(wide)
  {
    if wide then x % 0x1_0000_0000_0000_0000 else x % 0x1_0000_0000
  }

  function Largest(wide: bool): nat { if wide then MAX_UINT64 else MAX_UINT32 }

  lemma Wraps(x: nat, wide: bool)
    requires x <= 2 * Largest(wide) + 1
    ensures Word(x, wide) == if x <= Largest(wide) then x else x - Largest(wide) - 1
  {
  }

  lemma TimesEight(l: nat, wide: bool)
    requires l <= Largest(wide)
    ensures Word(8 * l, wide) / 8 == l <==> 8 * l <= Largest(wide)
    ensures 8 * l <= Largest(wide) ==> Word(8 * l, wide) == 8 * l
  {
    if wide {
      var q := 8 * l / 0x1_0000_0000_0000_0000;
      assert 8 * l % 0x1_0000_0000_0000_0000 / 8 == l - q * 0x2000_0000_0000_0000;
    } else {
      var q := 8 * l / 0x1_0000_0000;
      assert 8 * l % 0x1_0000_0000 / 8 == l - q * 0x2000_0000;
    }
  }

  /** The shift-and-add test of the scanners: l * 10 + c, if it fits. */
  function TimesTen(l: nat, c: nat, wide: bool): (r: Option<nat>)
    requires c < 10 && l <= Largest(wide)
  {
    var n := Word(8 * l, wide);
    if n / 8 != l then None
    else if Word(n + Word(2 * l, wide), wide) < n then None
    else
      var k := Word(n + Word(2 * l, wide), wide);
      if Word(k + c, wide) < k then None else Some(Word(k + c, wide))
  }

  lemma TimesTenIsExact(l: nat, c: nat, wide: bool)
    requires c < 10 && l <= Largest(wide)
    ensures TimesTen(l, c, wide) == if 10 * l + c <= Largest(wide) then Some(10 * l + c) else None
  {
    hide Word;
    TimesEight(l, wide);
    Wraps(2 * l, wide);
    if 8 * l <= Largest(wide) {
      Wraps(8 * l + 2 * l, wide);
      Wraps(Word(10 * l, wide) + c, wide);
    }
  }

  /** scan_ulonglong: how many digits were taken, and their value if there were any. */
  method ScanULongLong(src: string) returns (len: nat, dest: Option<nat>)
    ensures IsLongest(src, MAX_UINT64, len)
    ensures dest == if len > 0 then Some(Value(src[..len])) else None
  {
    len := 0;
    var l: nat := 0;
    while len < |src| && IsDigit(src[len])
      invariant len <= |src| && Fits(src, MAX_UINT64, len) && l == Value(src[..len])
      decreases |src| - len
    {
      OneMore(src, len);
      TimesTenIsExact(l, Digit(src[len]), true);
      var n := TimesTen(l, Digit(src[len]), true);
      if n.None? {
        break;
      }
      l, len := n.value, len + 1;
    }
    StopsAtLongest(src, MAX_UINT64, len);
    dest := if len > 0 then Some(l) else None;
  }

  predicate Signed(src: string) {
    src != [] && (src[0] == '-' || src[0] == '+')
  }

  predicate Negative(src: string) {
    src != [] && src[0] == '-'
  }

  function Unsigned(src: string): string { if Signed(src) then src[1..] else src }

  /** src begins, after a sign, with digits of which n are the longest run worth at most `most`, or
      one more behind a minus, and x is the number they spell. */
  ghost predicate Scans(src: string, most: nat, n: nat, x: int) {
    && n > 0
    && IsLongest(Unsigned(src), if Negative(src) then most + 1 else most, n)
    && (Negative(src) ==> x == 0 - Value(Unsigned(src)[..n]))
    && (!Negative(src) ==> x == Value(Unsigned(src)[..n]))
  }

  /** Where no digit follows the sign there is nothing to scan. */
  lemma NoDigits(s: string, max: nat, n: nat)
    requires IsLongest(s, max, n) && max >= 9
    ensures n > 0 <==> s != [] && IsDigit(s[0])
  {
    if s != [] && IsDigit(s[0]) {
      OneMore(s, 0);
      assert Fits(s, max, 1);
    }
    if n > 0 {
      assert s[..n][0] == s[0];
    }
  }

  /** scan_longlong: the sign, and one digit given back when the value is out of range. */
  method ScanLongLong(src: string) returns (len: nat, dest: Option<int>)
    ensures len == 0 <==> dest.None?
    ensures len == 0 <==> Unsigned(src) == [] || !IsDigit(Unsigned(src)[0])
    ensures len > 0 ==> Scans(src, MAX_INT64, len - (if Signed(src) then 1 else 0), dest.value)
  {
    var o := if Signed(src) then 1 else 0;
    var neg := if Negative(src) then 1 else 0;
    var s := src[o..];
    assert s == Unsigned(src);
    var i, v := ScanULongLong(s);
    NoDigits(s, MAX_UINT64, i);
    if i == 0 {
      return 0, None;
    }
    var l := v.value;
    if l > MAX_INT64 + neg {
      assert s[..i][..i - 1] == s[..i - 1];
      OneBack(s, i, MAX_INT64 + neg);
      l, i := l / 10, i - 1;
    } else {
      Shrink(s, MAX_UINT64, MAX_INT64 + neg, i);
    }
    return i + o, Some(if neg == 1 then -l else l);
  }

  /** Fewer digits of a longest run that still fit a smaller limit are the longest for it. */
  lemma Shrink(s: string, max: nat, most: nat, n: nat)
    requires IsLongest(s, max, n) && most <= max && Value(s[..n]) <= most
    ensures IsLongest(s, most, n)
  {
    forall j: nat {:trigger Fits(s, most, j)} | Fits(s, most, j)
      ensures j <= n
    {
      assert Fits(s, max, j);
    }
  }

  lemma OneDigit(s: string)
    requires AllDigits(s)
    ensures |s| <= 1 ==> Value(s) <= 9
  {
    if |s| == 1 {
      assert s[..0] == [];
    }
  }

  /** Above the signed limit one digit less is the longest run, since ten times the limit is more
      than an unsigned word holds. */
  lemma OneBack(s: string, n: nat, most: nat)
    requires IsLongest(s, MAX_UINT64, n) && n > 0 && Value(s[..n]) > most >= MAX_INT64
    ensures AllDigits(s[..n - 1]) && Value(s[..n - 1]) == Value(s[..n]) / 10
    ensures n > 1 && IsLongest(s, most, n - 1)
  {
    assert s[..n][n - 1] == s[n - 1] && s[..n][..n - 1] == s[..n - 1];
    OneDigit(s[..n]);
    StopsAtLongest(s, most, n - 1);
  }

  function AsInt32(x: int): int {
    (x + 0x8000_0000) % 0x1_0000_0000 - 0x8000_0000
  }

  /** scan_int: the limit is looked at digit by digit; l is a signed word all the while. */
  method ScanInt(src: string) returns (len: nat, dest: Option<int>)
    ensures len == 0 <==> dest.None?
    ensures len == 0 <==> Unsigned(src) == [] || !IsDigit(Unsigned(src)[0])
    ensures len > 0 ==> Scans(src, MAX_INT32, len - (if Signed(src) then 1 else 0), dest.value)
  {
    hide AsInt32, AsUInt32, TimesTen, Value, IsLongest;
    var neg, tmp: nat := 0, 0;
    if src != [] {
      if src[0] == '-' {
        neg, tmp := 1, 1;
      } else if src[0] == '+' {
        tmp := 1;
      }
    }
    ghost var s := Unsigned(src);
    ghost var o := tmp;
    var l: int, ok := 0, false;
    NothingYet(s, MAX_INT32 + neg);
    while tmp < |src| && IsDigit(src[tmp])
      invariant o <= tmp <= |src| && ok == (tmp > o)
      invariant Fits(s, MAX_INT32 + neg, tmp - o) && l == AsInt32(Value(s[..tmp - o]))
      decreases |src| - tmp
    {
      OneMore(s, tmp - o);
      FromInt32(Value(s[..tmp - o]));
      TimesTenIsExact(Value(s[..tmp - o]), Digit(src[tmp]), false);
      var n := TimesTen(AsUInt32(l), Digit(src[tmp]), false);
      if n.None? || n.value > MAX_INT32 + neg {
        break;
      }
      l, tmp, ok := AsInt32(n.value), tmp + 1, true;
    }
    StopsAtLongest(s, MAX_INT32 + neg, tmp - o);
    NoDigits(s, MAX_INT32 + neg, tmp - o);
    if !ok {
      return 0, None;
    }
    FromInt32(Value(s[..tmp - o]));
    return tmp, Some(if neg == 1 then AsInt32(-l) else l);
  }

  lemma NothingYet(s: string, max: nat)
    ensures Fits(s, max, 0) && AsInt32(Value(s[..0])) == 0
  {
  }

  function AsUInt32(x: int): (r: nat)
    ensures r <= MAX_UINT32
  {
    x % 0x1_0000_0000
  }

  lemma FromInt32(n: nat)
    requires n <= MAX_UINT32
    ensures AsUInt32(AsInt32(n)) == n
    ensures n <= MAX_INT32 ==> AsInt32(n) == n
    ensures n <= MAX_INT32 + 1 ==> AsInt32(-AsInt32(n)) == 0 - n
  {
  }

  /** The decimal digits of n. */
  function Decimal(n: nat): (s: string)
    ensures s != [] && AllDigits(s) && Value(s) == n
    ensures |s| > 1 ==> s[0] != '0'
  {
    var d := [(n % 10) as char + '0'];
    if n < 10 then
      assert d[..0] == [] && Value(d) == n;
      d
    else
      var s := Decimal(n / 10) + d;
      assert s[..|s| - 1] == Decimal(n / 10);
      s
  }

  function DecimalInt(x: int): string { if x < 0 then "-" + Decimal(-x) else Decimal(x) }

  /** fmt_ulonglong: the length, and the digits at dest[at..] if there is a dest. */
  method FmtULongLong(dest: array?<char>, at: nat, n: nat) returns (len: nat)
    requires n <= MAX_UINT64 && (dest != null ==> at + |Decimal(n)| <= dest.Length)
    modifies dest
    ensures len == |Decimal(n)|
    ensures dest != null ==> dest[..] == old(dest[..])[..at] + Decimal(n) + old(dest[..])[at + len..]
  {
    var tmp := n;
    len := 1;
    while tmp > 9
      invariant len + |Decimal(tmp)| == |Decimal(n)| + 1
      modifies {}
    {
      tmp := tmp / 10;
      len := len + 1;
    }
    if dest != null {
      Fill(dest, at, len, n);
    }
  }

  lemma LastDigit(d: string, i: nat, n: nat)
    requires 0 < i <= |d| && d[..i] == Decimal(n)
    ensures d[i - 1] == (n % 10) as char + '0'
    ensures i > 1 ==> n >= 10 && d[..i - 1] == Decimal(n / 10)
  {
    assert d[..i][i - 1] == d[i - 1] && d[..i][..i - 1] == d[..i - 1];
  }

  /** The digits, from the last one back. */
  method Fill(dest: array<char>, at: nat, len: nat, n: nat)
    requires len == |Decimal(n)| && at + len <= dest.Length
    modifies dest
    ensures dest[..] == old(dest[..])[..at] + Decimal(n) + old(dest[..])[at + len..]
  {
    hide Decimal, Value;
    ghost var was, d := dest[..], Decimal(n);
    var len2, tmp := len, n;
    assert d[..len2] == d;
    while len2 > 0
      invariant 0 <= len2 <= len
      invariant len2 > 0 ==> d[..len2] == Decimal(tmp)
      invariant forall k | 0 <= k < at + len2 || at + len <= k < dest.Length :: dest[k] == was[k]
      invariant forall k | len2 <= k < len :: dest[at + k] == d[k]
    {
      LastDigit(d, len2, tmp);
      len2 := len2 - 1;
      dest[at + len2] := (tmp % 10) as char + '0';
      tmp := tmp / 10;
    }
    assert dest[..] == was[..at] + d + was[at + len..];
  }

  lemma SignInFront(was: string, at: nat, d: string)
    requires at + 1 + |d| <= |was|
    ensures var s := was[at := '-'];
            s[..at + 1] + d + s[at + 1 + |d|..] == was[..at] + ("-" + d) + was[at + 1 + |d|..]
  {
  }

  /** fmt_longlong */
  method FmtLongLong(dest: array?<char>, at: nat, x: int) returns (len: nat)
    requires -MAX_INT64 - 1 <= x <= MAX_INT64 && (dest != null ==> at + |DecimalInt(x)| <= dest.Length)
    modifies dest
    ensures len == |DecimalInt(x)|
    ensures dest != null ==> dest[..] == old(dest[..])[..at] + DecimalInt(x) + old(dest[..])[at + len..]
  {
    hide Decimal, Value, IsLongest;
    if x >= 0 {
      len := FmtULongLong(dest, at, x);
    } else if dest == null {
      len := FmtULongLong(dest, at + 1, -x);
      len := len + 1;
    } else {
      len := FmtNegative(dest, at, -x);
    }
  }

  method FmtNegative(dest: array<char>, at: nat, n: nat) returns (len: nat)
    requires n <= MAX_UINT64 && at + 1 + |Decimal(n)| <= dest.Length
    modifies dest
    ensures len == |Decimal(n)| + 1
    ensures dest[..] == old(dest[..])[..at] + ("-" + Decimal(n)) + old(dest[..])[at + len..]
  {
    hide Decimal, Value, IsLongest;
    ghost var was := dest[..];
    dest[at] := '-';
    assert dest[..] == was[at := '-'];
    SignInFront(was, at, Decimal(n));
    len := FmtULongLong(dest, at + 1, n);
    len := len + 1;
  }

  /** Scanning what fmt_longlong wrote gives every int64 back, the least included, whatever comes
      behind it that is not a digit. */
  lemma ScanUndoesFmt(x: int, rest: string)
    requires -MAX_INT64 - 1 <= x <= MAX_INT64 && (rest != [] ==> !IsDigit(rest[0]))
    ensures Scans(DecimalInt(x) + rest, MAX_INT64, |DecimalInt(x)| - (if x < 0 then 1 else 0), x)
    ensures Signed(DecimalInt(x) + rest) <==> x < 0
  {
    hide Decimal, Value;
    var n: nat := if x < 0 then -x else x;
    var s := DecimalInt(x) + rest;
    var d := Decimal(n);
    assert s[0] == DecimalInt(x)[0];
    assert x >= 0 ==> IsDigit(d[0]);
    assert Unsigned(s) == d + rest;
    assert (d + rest)[..|d|] == d;
    StopsAtLongest(Unsigned(s), if x < 0 then MAX_INT64 + 1 else MAX_INT64, |Decimal(n)|);
  }

  /** A string scans in one way only, so that this is what scan_longlong returns. */
  lemma ScansOneWay(src: string, most: nat, n: nat, x: int, k: nat, y: int)
    requires Scans(src, most, n, x) && Scans(src, most, k, y)
    ensures n == k && x == y
  {
  }

  /** scan_longlong on what fmt_longlong wrote: the number, and every byte of it. */
  method ScanFormatted(x: int, rest: string) returns (len: nat, dest: Option<int>)
    requires -MAX_INT64 - 1 <= x <= MAX_INT64 && (rest != [] ==> !IsDigit(rest[0]))
    ensures len == |DecimalInt(x)| && dest == Some(x)
  {
    var src := DecimalInt(x) + rest;
    ScanUndoesFmt(x, rest);
    len, dest := ScanLongLong(src);
    ghost var n := |DecimalInt(x)| - if x < 0 then 1 else 0;
    assert x < 0 <==> Negative(src);
    SomethingScanned(src, n, x);
    ScansOneWay(src, MAX_INT64, n, x, len - (if Signed(src) then 1 else 0), dest.value);
  }

  lemma SomethingScanned(src: string, n: nat, x: int)
    requires Scans(src, MAX_INT64, n, x)
    ensures Unsigned(src) != [] && IsDigit(Unsigned(src)[0])
  {
    NoDigits(Unsigned(src), if Negative(src) then MAX_INT64 + 1 else MAX_INT64, n);
  }

  /** The digits by their codes, and what one more digit does to the value. */
  lemma DigitsMean(s: string, c: char)
    requires AllDigits(s) && IsDigit(c)
    ensures 48 <= c as int <= 57 && Digit(c) == c as int - 48
    ensures AllDigits(s + [c]) && Value(s + [c]) == 10 * Value(s) + (c as int - 48) && Value("") == 0
  {
    assert (s + [c])[..|s|] == s;
  }
}
