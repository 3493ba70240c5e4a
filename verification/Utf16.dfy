/** Whole texts: counting and skipping characters, and the bounded conversions between UTF-8 and
    UTF-16 (RFC 2781). */
module Utf16 {
  import opened Utf8

  type Unit = x: int | 0 <= x < 0x10000

  const REPLACEMENT := 0xfffd

  // Characters of a byte text: what is not UTF-8 is taken byte by byte.

  /** u8charlen */
  function CharLen(s: seq<Byte>): (n: nat)
    ensures n <= |s| && (n == 0 <==> s == [])
  {
    var d := Decode(s);
    if d.Char? then
      DecodeIsEncode(s);
      d.len
    else if s == [] then 0 else 1
  }

  /** The code points of a byte text. */
  function Points(s: seq<Byte>): (r: seq<nat>)
    ensures forall i | 0 <= i < |r| :: Scalar(r[i])
  {
    if s == [] then [] else [Point(s)] + Points(s[CharLen(s)..])
  }

  function Point(s: seq<Byte>): (c: nat)
    requires s != []
    ensures Scalar(c)
  {
    var d := Decode(s);
    if d.Char? then
      DecodeIsEncode(s);
      d.cp
    else REPLACEMENT
  }

  /** u8count */
  method U8Count(s: seq<Byte>) returns (chars: nat)
    ensures chars == |Points(s)|
  {
    hide CharLen, Point;
    chars := 0;
    var i := 0;
    while i < |s|
      invariant i <= |s| && chars + |Points(s[i..])| == |Points(s)|
    {
      var l := CharLen(s[i..]);
      assert s[i..][l..] == s[i + l..];
      i, chars := i + l, chars + 1;
    }
  }

  /** The bytes of the first k characters. */
  function Skipped(s: seq<Byte>, k: nat): (n: nat)
    ensures n <= |s|
  {
    if k == 0 || s == [] then 0 else CharLen(s) + Skipped(s[CharLen(s)..], k - 1)
  }

  /** u8skip */
  method U8Skip(s: seq<Byte>, k: nat) returns (off: nat)
    ensures off == Skipped(s, k)
  {
    hide CharLen;
    off := 0;
    var left := k;
    assert s[0..] == s;
    while left > 0 && off < |s|
      invariant off <= |s| && off + Skipped(s[off..], left) == Skipped(s, k)
      decreases left
    {
      var l := CharLen(s[off..]);
      assert s[off..][l..] == s[off + l..];
      off, left := off + l, left - 1;
    }
  }

  /** Skipping as many characters as there are takes every byte; the first k characters and the
      rest have the code points of the whole. */
  lemma {:induction false} SkipSplits(s: seq<Byte>, k: nat)
    ensures k >= |Points(s)| ==> Skipped(s, k) == |s|
    ensures k <= |Points(s)| ==> Points(s) == Points(s)[..k] + Points(s[Skipped(s, k)..])
  {
    hide CharLen, Point;
    if k > 0 && s != [] {
      var l := CharLen(s);
      var rest := Points(s[l..]);
      SkipSplits(s[l..], k - 1);
      assert s[l..][Skipped(s[l..], k - 1)..] == s[Skipped(s, k)..];
      assert Points(s) == [Point(s)] + rest;
      if k <= |Points(s)| {
        assert Points(s)[..k] == [Point(s)] + rest[..k - 1];
      }
    } else {
      assert s[0..] == s;
    }
  }

  // UTF-8 to UTF-16

  function Units(c: nat): (r: seq<Unit>)
    requires Scalar(c)
    ensures 1 <= |r| <= 2
  {
    if c < 0x10000 then [c] else [0xd800 + (c - 0x10000) / 0x400, 0xdc00 + (c - 0x10000) % 0x400]
  }

  predicate Scalars(cs: seq<nat>) {
    forall i | 0 <= i < |cs| :: Scalar(cs[i])
  }

  function AllUnits(cs: seq<nat>): seq<Unit>
    requires Scalars(cs)
  {
    if cs == [] then [] else Units(cs[0]) + AllUnits(cs[1..])
  }

  function AllBytes(cs: seq<nat>): seq<Byte>
    requires Scalars(cs)
  {
    if cs == [] then [] else Encode(cs[0]) + AllBytes(cs[1..])
  }

  /** u8tou16's reading of a character: what u8decode refuses is one byte of U+FFFD. */
  method NextPoint(s: seq<Byte>) returns (cp: nat, len: nat)
    requires s != []
    ensures cp == Point(s) && len == CharLen(s)
  {
    var l, c := U8Decode(s);
    if l < 0 {
      return REPLACEMENT, 1;
    }
    return c, l;
  }

  /** One or two units at dst[at..]. */
  method Put(dst: array<Unit>, at: nat, u: seq<Unit>)
    requires 1 <= |u| <= 2 && at + |u| <= dst.Length
    modifies dst
    ensures dst[..at + |u|] == old(dst[..at]) + u && dst[at + |u|..] == old(dst[at + |u|..])
  {
    dst[at] := u[0];
    if |u| == 2 {
      dst[at + 1] := u[1];
    }
  }

  /** u8tou16. Converting the bytes used, and then the others, is converting all; and the next
      character would not have fitted. */
  method U8ToU16(dst: array<Unit>, max: nat, s: seq<Byte>) returns (out: nat, used: nat)
    requires max <= dst.Length
    modifies dst
    ensures out <= max && used <= |s|
    ensures AllUnits(Points(s)) == dst[..out] + AllUnits(Points(s[used..]))
    ensures used < |s| ==> out + |Units(Point(s[used..]))| > max
    ensures dst[out..] == old(dst[out..])
  {
    hide Units, Point, CharLen;
    out, used := 0, 0;
    ghost var was := dst[..];
    assert s[0..] == s;
    while used < |s|
      invariant out <= max && used <= |s|
      invariant AllUnits(Points(s)) == dst[..out] + AllUnits(Points(s[used..]))
      invariant dst[out..] == was[out..]
    {
      var rest := s[used..];
      var cp, l := NextPoint(rest);
      var u := UnitsOf(cp);
      if out + |u| > max {
        break;
      }
      assert rest[l..] == s[used + l..];
      assert Points(rest) == [cp] + Points(rest[l..]);
      Put(dst, out, u);
      out, used := out + |u|, used + l;
    }
  }

  /** The surrogate arithmetic of u8tou16. */
  method UnitsOf(cp: nat) returns (u: seq<Unit>)
    requires Scalar(cp)
    ensures u == Units(cp)
  {
    if cp >= 0x10000 {
      var c := cp - 0x10000;
      u := [0xd800 + c / 0x400, 0xdc00 + c % 0x400];
    } else {
      u := [cp];
    }
  }

  // UTF-16 to UTF-8: a lone surrogate is taken for U+FFFD.

  predicate High(u: Unit) { 0xd800 <= u <= 0xdbff }
  predicate Low(u: Unit) { 0xdc00 <= u <= 0xdfff }

  predicate IsPair(w: seq<Unit>) { |w| > 1 && High(w[0]) && Low(w[1]) }

  function Point16(w: seq<Unit>): (c: nat)
    requires w != []
    ensures Scalar(c)
  {
    if IsPair(w) then 0x10000 + (w[0] - 0xd800) * 0x400 + (w[1] - 0xdc00)
    else if High(w[0]) || Low(w[0]) then REPLACEMENT
    else w[0]
  }

  function Len16(w: seq<Unit>): (n: nat)
    requires w != []
    ensures 1 <= n <= |w|
  {
    if IsPair(w) then 2 else 1
  }

  function Points16(w: seq<Unit>): (r: seq<nat>)
    ensures Scalars(r)
  {
    if w == [] then [] else [Point16(w)] + Points16(w[Len16(w)..])
  }

  /** u8fromu16's reading of a character. */
  method NextPoint16(w: seq<Unit>) returns (cp: nat, units: nat)
    requires w != []
    ensures cp == Point16(w) && units == Len16(w)
  {
    cp, units := w[0], 1;
    if 0xd800 <= cp <= 0xdbff && 1 < |w| && 0xdc00 <= w[1] <= 0xdfff {
      cp, units := 0x10000 + (cp - 0xd800) * 0x400 + (w[1] - 0xdc00), 2;
    } else if 0xd800 <= cp <= 0xdfff {
      cp := REPLACEMENT;
    }
  }

  /** The first l bytes of tmp at dst[at..]. */
  method Copy(dst: array<Byte>, at: nat, tmp: array<Byte>, l: nat)
    requires dst != tmp && at + l <= dst.Length && l <= tmp.Length
    modifies dst
    ensures dst[..at + l] == old(dst[..at]) + tmp[0..l] && dst[at + l..] == old(dst[at + l..])
  {
    var k := 0;
    while k < l
      invariant k <= l && dst[..at + k] == old(dst[..at]) + tmp[0..k] && dst[at + l..] == old(dst[at + l..])
    {
      dst[at + k] := tmp[k];
      k := k + 1;
    }
  }

  lemma FirstBytes(w: seq<Unit>)
    requires w != []
    ensures AllBytes(Points16(w)) == Encode(Point16(w)) + AllBytes(Points16(w[Len16(w)..]))
  {
    hide Encode, Point16, Len16;
    assert Points16(w)[1..] == Points16(w[Len16(w)..]);
  }

  /** u8fromu16, with its four bytes of scratch. */
  method U8FromU16(dst: array<Byte>, max: nat, w: seq<Unit>) returns (out: nat, used: nat)
    requires max <= dst.Length
    modifies dst
    ensures out <= max && used <= |w|
    ensures AllBytes(Points16(w)) == dst[..out] + AllBytes(Points16(w[used..]))
    ensures used < |w| ==> out + |Encode(Point16(w[used..]))| > max
    ensures dst[out..] == old(dst[out..])
  {
    hide Encode, Point16, Len16, Scalar, Scalars, AllBytes, Points16;
    out, used := 0, 0;
    ghost var was := dst[..];
    var tmp := new Byte[4](_ => 0);
    assert w[0..] == w;
    while used < |w|
      invariant out <= max && used <= |w| && fresh(tmp) && tmp.Length == 4
      invariant AllBytes(Points16(w)) == dst[..out] + AllBytes(Points16(w[used..]))
      invariant dst[out..] == was[out..]
    {
      var rest := w[used..];
      var cp, units := NextPoint16(rest);
      assert rest[units..] == w[used + units..];
      FirstBytes(rest);
      var l := U8Encode(tmp, 0, cp);
      if out + l > max {
        break;
      }
      Copy(dst, out, tmp, l);
      out, used := out + l, used + units;
    }
  }

  // Round trips on well-formed text

  /** A character's units give it back. */
  lemma PointOfUnits(c: nat, rest: seq<Unit>)
    requires Scalar(c)
    ensures Point16(Units(c) + rest) == c && Len16(Units(c) + rest) == |Units(c)|
  {
  }

  lemma {:induction false} PointsOfUnits(cs: seq<nat>)
    requires Scalars(cs)
    ensures Points16(AllUnits(cs)) == cs
  {
    if cs != [] {
      PointOfUnits(cs[0], AllUnits(cs[1..]));
      assert AllUnits(cs)[|Units(cs[0])|..] == AllUnits(cs[1..]);
      PointsOfUnits(cs[1..]);
    }
  }

  lemma {:induction false} PointsOfBytes(cs: seq<nat>)
    requires Scalars(cs)
    ensures Points(AllBytes(cs)) == cs
  {
    if cs != [] {
      DecodeEncode(cs[0], AllBytes(cs[1..]));
      assert AllBytes(cs)[|Encode(cs[0])|..] == AllBytes(cs[1..]);
      PointsOfBytes(cs[1..]);
    }
  }

  /** Well-formed UTF-8 converted to UTF-16 and back, and well-formed UTF-16 to UTF-8 and back. */
  lemma RoundTrips(cs: seq<nat>)
    requires Scalars(cs)
    ensures AllUnits(Points(AllBytes(cs))) == AllUnits(cs) && AllBytes(Points16(AllUnits(cs))) == AllBytes(cs)
    ensures AllBytes(Points16(AllUnits(Points(AllBytes(cs))))) == AllBytes(cs)
    ensures AllUnits(Points(AllBytes(Points16(AllUnits(cs))))) == AllUnits(cs)
    ensures |Points(AllBytes(cs))| == |cs|
  {
    PointsOfUnits(cs);
    PointsOfBytes(cs);
  }

  /** Skipping k characters of well-formed text skips their encodings. */
  lemma SkipsEncodings(cs: seq<nat>, k: nat)
    requires Scalars(cs) && k <= |cs|
    ensures Skipped(AllBytes(cs), k) == |AllBytes(cs[..k])|
    decreases k
  {
    hide Encode, Decode;
    if k > 0 {
      DecodeEncode(cs[0], AllBytes(cs[1..]));
      assert AllBytes(cs)[|Encode(cs[0])|..] == AllBytes(cs[1..]);
      SkipsEncodings(cs[1..], k - 1);
      assert cs[..k][1..] == cs[1..][..k - 1];
    }
  }

  /** RFC 2781 section 2.1: a value below 0x10000 is one unit, any other a pair, the high ten bits above
      0xd800 and the low ten above 0xdc00. */
  lemma UnitsArePairs(c: nat)
    requires Scalar(c)
    ensures var u := Units(c);
            && (c < 0x10000 ==> u == [c])
            && (c >= 0x10000 ==>
                  && |u| == 2 && 0xd800 <= u[0] <= 0xdbff && 0xdc00 <= u[1] <= 0xdfff
                  && 0x10000 + (u[0] as int - 0xd800) * 0x400 + (u[1] as int - 0xdc00) == c)
  {
  }
}
