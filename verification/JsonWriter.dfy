/** The JSON writer: a buffer, a depth, and two flags that say what the next item needs. */
module JsonWriter {
  import opened JsonText
  import Numbers

  /** A Pair is written with its key in one call, so it is a member's value only. */
  predicate Writable(v: Out)
    decreases v
  {
    match v
    case Pair(_, _) => false
    case List(vs) => forall i | 0 <= i < |vs| :: Writable(vs[i])
    case Object(ms) => forall i | 0 <= i < |ms| :: ms[i].value.Pair? || Writable(ms[i].value)
    case _ => true
  }

  predicate Container(v: Out) { v.List? || v.Object? }

  /** What json_sep puts before an item. */
  function Lead(st: Style, depth: nat, comma: bool, key: bool): string {
    if key then [] else (if comma then "," else []) + if depth > 0 then Break(st, depth) else []
  }

  lemma {:induction false} EscapeSnoc(s: string, i: nat)
    requires i < |s|
    ensures EscapeAll(s[..i + 1]) == EscapeAll(s[..i]) + Escape(s[i])
    decreases i
  {
    if i > 0 {
      EscapeSnoc(s[1..], i - 1);
      assert s[..i + 1][1..] == s[1..][..i] && s[..i][1..] == s[1..][..i - 1];
    }
  }

  lemma Across(b: string, v: string, t: string, item: string)
    ensures b + (v + ("," + (t + ("," + item)))) == b + (v + ("," + t)) + ("," + item)
  {
  }

  /** The text of one more item. */
  lemma {:induction false} ItemsSnoc(st: Style, vs: seq<Out>, k: nat, d: nat)
    requires k < |vs| && d > 0
    ensures ItemsText(st, vs[..k + 1], d) == ItemsText(st, vs[..k], d) + (Lead(st, d, k > 0, false) + Rendered(st, vs[k], d))
    decreases k
  {
    hide Rendered, Break;
    if k == 0 {
      assert vs[..1][1..] == [];
    } else {
      var rest := vs[1..];
      ItemsSnoc(st, rest, k - 1, d);
      assert vs[..k + 1][1..] == rest[..k] && vs[..k][1..] == rest[..k - 1] && rest[k - 1] == vs[k];
      var item := Break(st, d) + Rendered(st, vs[k], d);
      if k > 1 {
        Across(Break(st, d), Rendered(st, vs[0], d), ItemsText(st, rest[..k - 1], d), item);
      } else {
        assert ItemsText(st, rest[..1], d) == item;
      }
    }
  }

  lemma {:induction false} MembersSnoc(st: Style, ms: seq<Member>, k: nat, d: nat)
    requires k < |ms| && d > 0
    ensures MembersText(st, ms[..k + 1], d) == MembersText(st, ms[..k], d) + (Lead(st, d, k > 0, false) + MemberText(st, ms[k], d))
    decreases k
  {
    hide MemberText, Break;
    if k == 0 {
      assert ms[..1][1..] == [];
    } else {
      var rest := ms[1..];
      MembersSnoc(st, rest, k - 1, d);
      assert ms[..k + 1][1..] == rest[..k] && ms[..k][1..] == rest[..k - 1] && rest[k - 1] == ms[k];
      var item := Break(st, d) + MemberText(st, ms[k], d);
      if k > 1 {
        Across(Break(st, d), MemberText(st, ms[0], d), MembersText(st, rest[..k - 1], d), item);
      } else {
        assert MembersText(st, rest[..1], d) == item;
      }
    }
  }

  lemma NothingEscaped()
    ensures EscapeAll([]) == []
  {
  }

  lemma PairThen(key: string, x: string, y: string)
    ensures key + "[" + x + "," + y + "]" == key + ("[" + (x + ("," + (y + "]"))))
  {
  }

  lemma Regroup(a: string, b: string, c: string, d: string)
    ensures a + b + c + d == a + (b + (c + d))
  {
  }

  lemma KeyThen(k: string, colon: string, r: string)
    ensures "\"" + (k + ("\"" + colon)) + r == "\"" + (k + ("\"" + (colon + r)))
  {
  }

  class Writer {
    const st: Style
    var out: string
    var depth: nat
    var comma: bool
    var key: bool

    /** json_init */
    constructor (st: Style)
      ensures this.st == st && out == [] && depth == 0 && !comma && !key
    {
      this.st := st;
      out, depth, comma, key := [], 0, false, false;
    }

    function Leads(): string
      reads this
    {
      Lead(st, depth, comma, key)
    }

    /** buffer_put */
    method Put(s: string)
      modifies this`out
      ensures out == old(out) + s
    {
      out := out + s;
    }

    /** json_break */
    method PutBreak()
      modifies this`out
      ensures out == old(out) + Break(st, depth)
    {
      if st.minify {
        return;
      }
      if st.indent > 0 {
        Put("\n");
        Put(Spaces(depth * st.indent));
      } else {
        Put(" ");
      }
    }

    /** json_sep */
    method Sep()
      modifies this`out, this`key
      ensures out == old(out) + old(Leads()) && !key
    {
      if key {
        key := false;
        return;
      }
      if comma {
        Put(",");
      }
      if depth > 0 {
        PutBreak();
      }
    }

    /** json_open */
    method Open(c: char)
      modifies this
      ensures out == old(out) + old(Leads()) + [c]
      ensures depth == old(depth) + 1 && !comma && !key
    {
      Sep();
      Put([c]);
      depth := depth + 1;
      comma := false;
    }

    /** json_close */
    method Close(c: char)
      requires depth > 0
      modifies this
      ensures depth == old(depth) - 1 && key == old(key)
      ensures out == old(out) + (Break(st, depth) + [c]) && comma == (depth > 0)
    {
      depth := depth - 1;
      PutBreak();
      Put([c]);
      comma := depth > 0;
    }

    /** json_key */
    method Key(k: string)
      modifies this
      ensures out == old(out) + old(Leads()) + ("\"" + (k + ("\"" + Colon(st))))
      ensures depth == old(depth) && key && comma
    {
      Sep();
      Put("\"");
      Put(k);
      Put("\":");
      if !st.minify {
        Put(" ");
      }
      key, comma := true, true;
    }

    /** json_null, json_uint and json_hex */
    method Scalar(v: Out)
      requires v.Null? || v.UInt? || v.Hex?
      modifies this
      ensures out == old(out) + old(Leads()) + Rendered(st, v, depth)
      ensures depth == old(depth) && !key && comma
    {
      Sep();
      match v {
        case Null => Put("null");
        case UInt(n) => Put(Numbers.Decimal(n));
        case Hex(n) =>
          Put("\"0x");
          Put(HexText(n));
          Put("\"");
      }
      comma := true;
    }

    /** One byte of a string. */
    method PutEscaped(c: char)
      modifies this`out
      ensures out == old(out) + Escape(c)
    {
      if c == '\"' || c == '\\' {
        Put("\\");
        Put([c]);
      } else if c == '\n' {
        Put("\\n");
      } else if c == '\r' {
        Put("\\r");
      } else if c == '\t' {
        Put("\\t");
      } else if c < ' ' {
        Put("\\u00");
        Put([HexChar(c as nat / 16)]);
        Put([HexChar(c as nat % 16)]);
      } else {
        Put([c]);
      }
    }

    /** json_str */
    method Text(s: string)
      modifies this
      ensures out == old(out) + old(Leads()) + Quote(s)
      ensures depth == old(depth) && !key && comma
    {
      hide Escape, EscapeAll, Break, Lead;
      Sep();
      Put("\"");
      ghost var base := out;
      NothingEscaped();
      var i := 0;
      while i < |s|
        invariant i <= |s| && out == base + EscapeAll(s[..i])
        invariant depth == old(depth) && !key
      {
        PutEscaped(s[i]);
        EscapeSnoc(s, i);
        i := i + 1;
      }
      assert s[..i] == s;
      Put("\"");
      comma := true;
    }

    /** json_kpair */
    method KPair(k: string, a: nat, b: nat)
      modifies this
      ensures out == old(out) + old(Leads()) + MemberText(st, Member(k, Pair(a, b)), depth)
      ensures depth == old(depth) && !key && comma
    {
      hide Lead, Colon, Numbers.Decimal, Break;
      Key(k);
      key := false;
      ghost var start, x, y := out, Numbers.Decimal(a), Numbers.Decimal(b);
      Put("[");
      Put(Numbers.Decimal(a));
      Put(",");
      Put(Numbers.Decimal(b));
      Put("]");
      PairThen(start, x, y);
      ghost var value := "[" + (x + ("," + (y + "]")));
      KeyThen(k, Colon(st), value);
      assert old(out) + old(Leads()) + ("\"" + (k + ("\"" + Colon(st)))) + value == old(out) + old(Leads()) + ("\"" + (k + ("\"" + Colon(st))) + value);
    }

    /** Any well-nested sequence of calls: the value it writes. */
    method Write(v: Out)
      requires Writable(v)
      modifies this
      ensures out == old(out) + old(Leads()) + Rendered(st, v, depth)
      ensures depth == old(depth) && !key && comma == (depth > 0 || !Container(v))
      decreases v, 1
    {
      if v.List? {
        WriteList(v.items);
      } else if v.Object? {
        WriteObject(v.members);
      } else if v.Str? {
        Text(v.s);
      } else {
        Scalar(v);
      }
    }

    method WriteList(vs: seq<Out>)
      requires Writable(List(vs))
      modifies this
      ensures out == old(out) + old(Leads()) + Rendered(st, List(vs), depth)
      ensures depth == old(depth) && !key && comma == (depth > 0)
      decreases vs, 0
    {
      hide Rendered, Break, Lead;
      Open('[');
      ghost var base := out;
      var i := 0;
      while i < |vs|
        invariant i <= |vs| && out == base + ItemsText(st, vs[..i], depth)
        invariant depth == old(depth) + 1 && !key && comma == (i > 0)
      {
        ItemsSnoc(st, vs, i, depth);
        Regroup(base, ItemsText(st, vs[..i], depth), Leads(), Rendered(st, vs[i], depth));
        Write(vs[i]);
        i := i + 1;
      }
      assert vs[..i] == vs;
      Close(']');
      ListText(st, vs, depth);
    }

    /** json_kpair, or json_key and what follows it. */
    method WriteMember(m: Member)
      requires m.value.Pair? || Writable(m.value)
      modifies this
      ensures out == old(out) + old(Leads()) + MemberText(st, m, depth)
      ensures depth == old(depth) && !key && (depth > 0 ==> comma)
      decreases m, 1
    {
      hide Rendered, Break;
      if m.value.Pair? {
        KPair(m.key, m.value.a, m.value.b);
      } else {
        Key(m.key);
        Write(m.value);
        KeyThen(m.key, Colon(st), Rendered(st, m.value, depth));
      }
    }

    method WriteObject(ms: seq<Member>)
      requires Writable(Object(ms))
      modifies this
      ensures out == old(out) + old(Leads()) + Rendered(st, Object(ms), depth)
      ensures depth == old(depth) && !key && comma == (depth > 0)
      decreases ms, 0
    {
      hide Rendered, Break, Lead, MemberText;
      Open('{');
      ghost var base := out;
      var i := 0;
      while i < |ms|
        invariant i <= |ms| && out == base + MembersText(st, ms[..i], depth)
        invariant depth == old(depth) + 1 && !key && comma == (i > 0)
      {
        MembersSnoc(st, ms, i, depth);
        Regroup(base, MembersText(st, ms[..i], depth), Leads(), MemberText(st, ms[i], depth));
        WriteMember(ms[i]);
        i := i + 1;
      }
      assert ms[..i] == ms;
      Close('}');
      ObjectText(st, ms, depth);
    }
  }
}
