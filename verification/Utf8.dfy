/** UTF-8 on code points: the encoder and the strict decoder. */
module Utf8 {
  import opened Wrappers

  type Byte = x: int | 0 <= x < 0x100

  /** Unicode scalar values (RFC 3629 section 3). */
  predicate Scalar(c: nat) { c < 0xd800 || 0xe000 <= c <= 0x10ffff }

  /** The table of RFC 3629 section 3. */
  function Encode(c: nat): (r: seq<Byte>)
    requires Scalar(c)
    ensures 1 <= |r| <= 4
  {
    if c < 0x80 then [c]
    else if c < 0x800 then [0xc0 + c / 0x40, 0x80 + c % 0x40]
    else if c < 0x10000 then [0xe0 + c / 0x1000, 0x80 + c / 0x40 % 0x40, 0x80 + c % 0x40]
    else [0xf0 + c / 0x40000, 0x80 + c / 0x1000 % 0x40, 0x80 + c / 0x40 % 0x40, 0x80 + c % 0x40]
  }

  /** What the decoder makes of the first bytes of a text. */
  datatype Decoded = Empty | Char(cp: nat, len: nat) | Invalid | Cut

  datatype Lead = Lead(len: nat, bits: nat, least: nat)

  /** What a first byte promises. */
  function LeadOf(b: Byte): Option<Lead> {
    if b < 0x80 then Some(Lead(1, b, 0))
    else if 0xc2 <= b <= 0xdf then Some(Lead(2, b % 0x20, 0x80))
    else if b / 0x10 == 0xe then Some(Lead(3, b % 0x10, 0x800))
    else if 0xf0 <= b <= 0xf4 then Some(Lead(4, b % 8, 0x10000))
    else None
  }

  predicate Continues(b: Byte) { b / 0x40 == 2 }

  /** The bytes of s from i on, up to len, added to c. */
  function Tail(s: seq<Byte>, i: nat, len: nat, c: nat): Decoded
    decreases len - i
  {
    if i >= len then Char(c, len)
    else if i >= |s| then Cut
    else if !Continues(s[i]) then Invalid
    else Tail(s, i + 1, len, c * 0x40 + s[i] % 0x40)
  }

  function Decode(s: seq<Byte>): Decoded {
    if s == [] then Empty
    else match LeadOf(s[0])
      case None => Invalid
      case Some(l) =>
        var d := Tail(s, 1, l.len, l.bits);
        if d.Char? && l.len > 1 && (d.cp < l.least || !Scalar(d.cp)) then Invalid else d
  }

  /** u8decode, with *cp beside the result. */
  method U8Decode(s: seq<Byte>) returns (r: int, cp: nat)
    ensures match Decode(s)
            case Empty => r == 0
            case Char(c, len) => r == len > 0 && cp == c
            case Invalid => r == -1
            case Cut => r == -2
  {
    cp := 0;
    if s == [] {
      return 0, cp;
    }
    var c: nat, len: nat, least: nat := s[0], 1, 0;
    if c < 0x80 {
      return 1, c;
    } else if 0xc2 <= c <= 0xdf {
      len, c, least := 2, c % 0x20, 0x80;
    } else if c / 0x10 == 0xe {
      len, c, least := 3, c % 0x10, 0x800;
    } else if 0xf0 <= c <= 0xf4 {
      len, c, least := 4, c % 8, 0x10000;
    } else {
      return -1, cp;
    }
    ghost var l := LeadOf(s[0]).value;
    var i := 1;
    while i < len
      invariant 1 <= i <= len && Tail(s, 1, l.len, l.bits) == Tail(s, i, len, c)
    {
      if i >= |s| {
        return -2, cp;
      }
      if s[i] / 0x40 != 2 {
        return -1, cp;
      }
      c, i := c * 0x40 + s[i] % 0x40, i + 1;
    }
    if c < least || c > 0x10ffff || 0xd800 <= c <= 0xdfff {
      return -1, cp;
    }
    return len, c;
  }

  /** u8encode: dst has room for four bytes at `at`. */
  method U8Encode(dst: array<Byte>, at: nat, cp: nat) returns (len: nat)
    requires at + 4 <= dst.Length
    modifies dst
    ensures if Scalar(cp) then len == |Encode(cp)| && dst[at..at + len] == Encode(cp) else len == 0
    ensures dst[..at] == old(dst[..at]) && dst[at + len..] == old(dst[at + len..])
  {
    if cp < 0x80 {
      dst[at] := cp;
      return 1;
    }
    if cp < 0x800 {
      dst[at], dst[at + 1] := 0xc0 + cp / 0x40, 0x80 + cp % 0x40;
      return 2;
    }
    if 0xd800 <= cp <= 0xdfff {
      return 0;
    }
    if cp < 0x10000 {
      dst[at], dst[at + 1], dst[at + 2] := 0xe0 + cp / 0x1000, 0x80 + cp / 0x40 % 0x40, 0x80 + cp % 0x40;
      return 3;
    }
    if cp > 0x10ffff {
      return 0;
    }
    dst[at], dst[at + 1] := 0xf0 + cp / 0x40000, 0x80 + cp / 0x1000 % 0x40;
    dst[at + 2], dst[at + 3] := 0x80 + cp / 0x40 % 0x40, 0x80 + cp % 0x40;
    return 4;
  }

  /** One continuation byte carries the low six bits. */
  lemma Joins(s: seq<Byte>, i: nat, len: nat, a: nat)
    requires i < len && i < |s| && s[i] == 0x80 + a % 0x40
    ensures Tail(s, i, len, a / 0x40) == Tail(s, i + 1, len, a)
  {
    assert Continues(s[i]);
  }

  /** Decoding takes an encoding back, whatever follows it. */
  lemma DecodeEncode(c: nat, rest: seq<Byte>)
    requires Scalar(c)
    ensures Decode(Encode(c) + rest) == Char(c, |Encode(c)|)
  {
    hide Tail;
    var e := Encode(c);
    var s := e + rest;
    var n := |e|;
    assert forall i | 0 <= i < n :: s[i] == e[i];
    assert LeadOf(s[0]) == Some(Lead(n, HighBits(c, n), LeastOf(n)));
    if n > 1 {
      if n > 2 {
        if n > 3 {
          assert c / 0x1000 / 0x40 == HighBits(c, n);
          Joins(s, n - 3, n, c / 0x1000);
        }
        assert c / 0x40 / 0x40 == c / 0x1000;
        Joins(s, n - 2, n, c / 0x40);
      }
      Joins(s, n - 1, n, c);
    }
    TailEnds(s, n, if n == 1 then HighBits(c, n) else c);
  }

  lemma TailEnds(s: seq<Byte>, len: nat, c: nat)
    ensures Tail(s, len, len, c) == Char(c, len)
  {
  }

  function HighBits(c: nat, len: nat): nat {
    if len == 1 then c else if len == 2 then c / 0x40 else if len == 3 then c / 0x1000 else c / 0x40000
  }

  function LeastOf(len: nat): nat {
    if len == 1 then 0 else if len == 2 then 0x80 else if len == 3 then 0x800 else 0x10000
  }

  /** A tail that comes out well is made of continuation bytes. */
  lemma {:induction false} TailIs(s: seq<Byte>, i: nat, len: nat, c: nat)
    requires i <= len && Tail(s, i, len, c).Char?
    ensures var d := Tail(s, i, len, c);
            d.len == len && (i < len ==> len <= |s| && s[len - 1] == 0x80 + d.cp % 0x40 && Tail(s, i, len - 1, c) == Char(d.cp / 0x40, len - 1))
            && (i == len ==> d.cp == c)
    decreases len - i
  {
    if i < len {
      TailIs(s, i + 1, len, c * 0x40 + s[i] % 0x40);
    }
  }

  /** A first byte and the high bits behind it are those of the encoding. */
  lemma FirstByte(b: Byte, cp: nat)
    requires LeadOf(b).Some? && Scalar(cp)
    requires var l := LeadOf(b).value; HighBits(cp, l.len) == l.bits && cp >= l.least
    ensures |Encode(cp)| == LeadOf(b).value.len && Encode(cp)[0] == b
  {
  }

  /** The bytes of a tail, from the last one back. */
  lemma TailBytes(s: seq<Byte>, n: nat, bits: nat)
    requires 1 <= n <= 4 && Tail(s, 1, n, bits).Char?
    ensures var c := Tail(s, 1, n, bits).cp;
            && (n > 1 ==> n <= |s|) && HighBits(c, n) == bits
            && (n > 1 ==> s[n - 1] == 0x80 + c % 0x40)
            && (n > 2 ==> s[n - 2] == 0x80 + c / 0x40 % 0x40)
            && (n > 3 ==> s[n - 3] == 0x80 + c / 0x1000 % 0x40)
  {
    hide Tail;
    var c := Tail(s, 1, n, bits).cp;
    TailIs(s, 1, n, bits);
    if n > 1 {
      TailIs(s, 1, n - 1, bits);
    }
    if n > 2 {
      assert c / 0x40 / 0x40 == c / 0x1000;
      TailIs(s, 1, n - 2, bits);
    }
    if n > 3 {
      assert c / 0x1000 / 0x40 == c / 0x40000;
      TailIs(s, 1, n - 3, bits);
    }
  }

  /** What it accepts is the encoding of the scalar value it gives, and nothing else. */
  lemma DecodeIsEncode(s: seq<Byte>)
    requires Decode(s).Char?
    ensures var d := Decode(s); Scalar(d.cp) && d.len <= |s| && s[..d.len] == Encode(d.cp)
  {
    hide Tail, HighBits;
    var l := LeadOf(s[0]).value;
    var c := Decode(s).cp;
    TailIs(s, 1, l.len, l.bits);
    TailBytes(s, l.len, l.bits);
    assert l.len == 1 ==> c == s[0];
    FirstByte(s[0], c);
    Bytewise(s, c);
  }

  lemma Bytewise(s: seq<Byte>, c: nat)
    requires Scalar(c) && |Encode(c)| <= |s| && s[0] == Encode(c)[0]
    requires var n := |Encode(c)|;
             && (n > 1 ==> s[n - 1] == 0x80 + c % 0x40)
             && (n > 2 ==> s[n - 2] == 0x80 + c / 0x40 % 0x40)
             && (n > 3 ==> s[n - 3] == 0x80 + c / 0x1000 % 0x40)
    ensures s[..|Encode(c)|] == Encode(c)
  {
  }

  /** A text that ends inside a character is told apart from one that is wrong. */
  lemma PrefixIsCut(c: nat, k: nat)
    requires Scalar(c) && 0 < k < |Encode(c)|
    ensures Decode(Encode(c)[..k]) == Cut
  {
  }

  /** The second byte is one that can follow the first: the others make overlong forms, surrogates or
      values above U+10FFFF (RFC 3629 section 4). */
  predicate SecondFits(a: Byte, b: Byte) {
    && (a == 0xe0 ==> b >= 0xa0)
    && (a == 0xed ==> b <= 0x9f)
    && (a == 0xf0 ==> b >= 0x90)
    && (a == 0xf4 ==> b <= 0x8f)
  }

  ghost predicate BeginsOne(s: seq<Byte>) {
    exists c: nat :: Scalar(c) && s < Encode(c)
  }

  /** A text said to be cut off can be completed exactly if it is one byte long or its second byte
      fits the first; and what can be completed is said to be cut off. */
  lemma CutMeans(s: seq<Byte>)
    requires s != []
    ensures BeginsOne(s) <==> Decode(s) == Cut && (|s| == 1 || SecondFits(s[0], s[1]))
  {
    hide Encode;
    if BeginsOne(s) {
      var c: nat :| Scalar(c) && s < Encode(c);
      PrefixIsCut(c, |s|);
      assert Encode(c)[..|s|] == s;
      SecondIs(c);
    }
    if Decode(s) == Cut && (|s| == 1 || SecondFits(s[0], s[1])) {
      var t := Completed(s);
      DecodeIsEncode(t);
      assert t[..Decode(t).len] == t;
    }
  }

  lemma SecondIs(c: nat)
    requires Scalar(c)
    ensures var e := Encode(c); |e| > 1 ==> SecondFits(e[0], e[1])
  {
  }

  lemma Completed(s: seq<Byte>) returns (t: seq<Byte>)
    requires s != [] && Decode(s) == Cut && (|s| == 1 || SecondFits(s[0], s[1]))
    ensures s < t && Decode(t).Char? && Decode(t).len == |t|
  {
    var n := LeadOf(s[0]).value.len;
    var two := if |s| > 1 then s else s + [if s[0] == 0xe0 then 0xa0 else if s[0] == 0xf0 then 0x90 else 0x80];
    t := two + seq(n - |two|, _ => 0x80);
    CutIs(s);
    Whole(t);
  }

  /** Cut: the first byte promises more, and what is there continues it. */
  lemma CutIs(s: seq<Byte>)
    requires s != []
    ensures Decode(s) == Cut <==>
              LeadOf(s[0]).Some? && |s| < LeadOf(s[0]).value.len && forall i | 1 <= i < |s| :: Continues(s[i])
  {
  }

  lemma Whole(t: seq<Byte>)
    requires t != [] && LeadOf(t[0]).Some? && |t| == LeadOf(t[0]).value.len > 1
    requires SecondFits(t[0], t[1]) && forall i | 1 <= i < |t| :: Continues(t[i])
    ensures Decode(t).Char? && Decode(t).len == |t|
  {
  }

  /** These two bytes begin no character, and are taken for a beginning. */
  lemma CutBeforeOverlong()
    ensures Decode([0xe0, 0x80]) == Cut && !BeginsOne([0xe0, 0x80])
  {
    CutMeans([0xe0, 0x80]);
  }

  /** The table of RFC 3629 section 3, from the bytes to the value: how many there are for which values,
      the fixed bits of each, and the free bits put together. */
  lemma EncodeIsTable(c: nat)
    requires Scalar(c)
    ensures var e := Encode(c);
            && (c <= 0x7f ==> e == [c])
            && (0x80 <= c <= 0x7ff ==>
                  |e| == 2 && 0xc0 <= e[0] <= 0xdf && 0x80 <= e[1] <= 0xbf && (e[0] as int - 0xc0) * 0x40 + (e[1] as int - 0x80) == c)
            && (0x800 <= c <= 0xffff ==>
                  && |e| == 3 && 0xe0 <= e[0] <= 0xef && 0x80 <= e[1] <= 0xbf && 0x80 <= e[2] <= 0xbf
                  && (e[0] as int - 0xe0) * 0x1000 + (e[1] as int - 0x80) * 0x40 + (e[2] as int - 0x80) == c)
            && (0x10000 <= c ==>
                  && |e| == 4 && 0xf0 <= e[0] <= 0xf7 && 0x80 <= e[1] <= 0xbf && 0x80 <= e[2] <= 0xbf && 0x80 <= e[3] <= 0xbf
                  && (e[0] as int - 0xf0) * 0x40000 + (e[1] as int - 0x80) * 0x1000 + (e[2] as int - 0x80) * 0x40 + (e[3] as int - 0x80) == c)
  {
    assert c / 0x40 % 0x40 == c / 0x40 - 0x40 * (c / 0x1000);
    assert c / 0x1000 % 0x40 == c / 0x1000 - 0x40 * (c / 0x40000);
  }

  /** The surrogates and the values above U+10FFFF have no encoding, all others have one. */
  lemma ScalarIs(c: nat)
    ensures Scalar(c) <==> c <= 0x10ffff && !(0xd800 <= c <= 0xdfff)
  {
  }
}
