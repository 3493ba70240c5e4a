/** The text the JSON writer makes of a value, and that it reads back to that value. */
module JsonText {
  import Numbers
  import opened Json

  /** What a caller may write. A Hex is a string in JSON; a Pair is an array of two numbers. */
  datatype Out =
    | Null
    | UInt(n: nat)
    | Hex(n: nat)
    | Str(s: string)
    | Pair(a: nat, b: nat)
    | List(items: seq<Out>)
    | Object(members: seq<Member>)

  datatype Member = Member(key: string, value: Out)

  datatype Style = Style(indent: nat, minify: bool)

  function HexChar(n: nat): char
    requires n < 16
  {
    if n < 10 then n as char + '0' else (n - 10) as char + 'a'
  }

  function HexText(n: nat): (s: string)
    ensures s != [] && forall i | 0 <= i < |s| :: Plain(s[i])
  {
    if n < 16 then [HexChar(n)] else HexText(n / 16) + [HexChar(n % 16)]
  }

  /** Characters that stand for themselves in a string. */
  predicate Plain(c: char) { c >= ' ' && c != '\"' && c != '\\' }

  function Escape(c: char): string {
    if c == '\"' || c == '\\' then ['\\', c]
    else if c == '\n' then "\\n"
    else if c == '\r' then "\\r"
    else if c == '\t' then "\\t"
    else if c < ' ' then "\\u00" + [HexChar(c as nat / 16), HexChar(c as nat % 16)]
    else [c]
  }

  function EscapeAll(s: string): string {
    if s == [] then [] else Escape(s[0]) + EscapeAll(s[1..])
  }

  function Quote(s: string): string { "\"" + EscapeAll(s) + "\"" }

  function Spaces(n: nat): (s: string)
    ensures |s| == n && Blank(s)
  {
    seq(n, i => ' ')
  }

  predicate Blank(s: string) {
    forall i | 0 <= i < |s| :: IsSpace(s[i])
  }

  /** json_break at a depth. */
  function Break(st: Style, d: nat): (s: string)
    ensures Blank(s)
  {
    if st.minify then [] else if st.indent > 0 then "\n" + Spaces(d * st.indent) else " "
  }

  function Colon(st: Style): string { if st.minify then ":" else ": " }

  /** A value behind the separator of an item at depth d. */
  function Rendered(st: Style, v: Out, d: nat): string
    decreases v
  {
    match v
    case Null => "null"
    case UInt(n) => Numbers.Decimal(n)
    case Hex(n) => "\"0x" + HexText(n) + "\""
    case Str(s) => Quote(s)
    case Pair(a, b) => "[" + (Numbers.Decimal(a) + ("," + (Numbers.Decimal(b) + "]")))
    case List(vs) => "[" + (ItemsText(st, vs, d + 1) + (Break(st, d) + "]"))
    case Object(ms) => "{" + (MembersText(st, ms, d + 1) + (Break(st, d) + "}"))
  }

  function ItemsText(st: Style, vs: seq<Out>, d: nat): string
    decreases vs
  {
    if vs == [] then [] else
    Break(st, d) + (Rendered(st, vs[0], d) + if |vs| == 1 then [] else "," + ItemsText(st, vs[1..], d))
  }

  function MembersText(st: Style, ms: seq<Member>, d: nat): string
    decreases ms
  {
    if ms == [] then [] else
    Break(st, d) + (MemberText(st, ms[0], d) + if |ms| == 1 then [] else "," + MembersText(st, ms[1..], d))
  }

  function MemberText(st: Style, m: Member, d: nat): string
    decreases m
  {
    "\"" + (m.key + ("\"" + (Colon(st) + Rendered(st, m.value, d))))
  }

  /** The value meant. */
  function Meaning(v: Out): Value
    decreases v
  {
    match v
    case Null => JNull
    case UInt(n) => JNumber(Numbers.Decimal(n))
    case Hex(n) => JString("0x" + HexText(n))
    case Str(s) => JString(s)
    case Pair(a, b) => JArray([JNumber(Numbers.Decimal(a)), JNumber(Numbers.Decimal(b))])
    case List(vs) => JArray(MeaningAll(vs))
    case Object(ms) => JObject(MeaningMembers(ms))
  }

  function MeaningAll(vs: seq<Out>): seq<Value>
    decreases vs
  {
    if vs == [] then [] else [Meaning(vs[0])] + MeaningAll(vs[1..])
  }

  function MeaningMembers(ms: seq<Member>): seq<(string, Value)>
    decreases ms
  {
    if ms == [] then [] else [(ms[0].key, Meaning(ms[0].value))] + MeaningMembers(ms[1..])
  }

  /** Keys are literals that need no escaping. */
  predicate PlainKeys(v: Out)
    decreases v
  {
    match v
    case List(vs) => forall i | 0 <= i < |vs| :: PlainKeys(vs[i])
    case Object(ms) => forall i | 0 <= i < |ms| :: AllPlain(ms[i].key) && PlainKeys(ms[i].value)
    case _ => true
  }

  predicate AllPlain(s: string) {
    forall i | 0 <= i < |s| :: Plain(s[i])
  }

  // Reading back

  lemma Starts(s: string, p: nat, a: string, b: string)
    ensures StartsAt(s, p, a + b) <==> StartsAt(s, p, a) && StartsAt(s, p + |a|, b)
  {
    if p + |a| + |b| <= |s| {
      var t := s[p..p + |a| + |b|];
      assert t[..|a|] == s[p..p + |a|] && t[|a|..] == s[p + |a|..p + |a| + |b|];
      assert t == t[..|a|] + t[|a|..];
      if StartsAt(s, p, a + b) {
        assert t == a + b;
        assert t[..|a|] == a && t[|a|..] == b;
      }
    }
  }

  lemma StartsWith(s: string, p: nat, t: string)
    requires StartsAt(s, p, t)
    ensures p + |t| <= |s| && forall i | 0 <= i < |t| :: s[p + i] == t[i]
  {
    forall i | 0 <= i < |t|
      ensures s[p + i] == t[i]
    {
      assert s[p..p + |t|][i] == s[p + i];
    }
  }

  lemma {:induction false} SkipsBlank(s: string, p: nat, w: string)
    requires StartsAt(s, p, w) && Blank(w)
    ensures Skip(s, p) == Skip(s, p + |w|)
    decreases |w|
  {
    if w != [] {
      StartsWith(s, p, w);
      assert s[p + 1..p + 1 + |w[1..]|] == w[1..];
      SkipsBlank(s, p + 1, w[1..]);
    }
  }

  lemma {:induction false} EscapePlain(t: string)
    requires AllPlain(t)
    ensures EscapeAll(t) == t
  {
    if t != [] {
      EscapePlain(t[1..]);
    }
  }

  lemma ReadsEscape(s: string, p: nat, c: char)
    requires StartsAt(s, p, Escape(c))
    ensures p < |s| && s[p] != '\"' && Character(s, p) == Got(c, p + |Escape(c)|)
  {
    hide Character, StartsAt;
    StartsWith(s, p, Escape(c));
    var e := Escape(c);
    assert s[p] == e[0];
    if c < ' ' && c != '\n' && c != '\r' && c != '\t' {
      assert s[p + 1] == e[1] && s[p + 2] == e[2] && s[p + 3] == e[3] && s[p + 4] == e[4] && s[p + 5] == e[5];
      ReadsCode(s, p, c);
    } else if |e| == 2 {
      assert s[p + 1] == e[1];
      ReadsPair2(s, p, c);
    } else {
      ReadsPlain(s, p, c);
    }
  }

  lemma ReadsPlain(s: string, p: nat, c: char)
    requires p < |s| && Plain(c) && s[p] == c
    ensures Character(s, p) == Got(c, p + 1)
  {
  }

  lemma ReadsPair2(s: string, p: nat, c: char)
    requires p + 1 < |s| && |Escape(c)| == 2 && s[p] == Escape(c)[0] && s[p + 1] == Escape(c)[1]
    ensures s[p] == '\\' && Character(s, p) == Got(c, p + 2)
  {
  }

  lemma ReadsCode(s: string, p: nat, c: char)
    requires p + 5 < |s| && c < ' ' && s[p] == '\\' && s[p + 1] == 'u' && s[p + 2] == '0' && s[p + 3] == '0'
    requires s[p + 4] == HexChar(c as nat / 16) && s[p + 5] == HexChar(c as nat % 16)
    ensures Character(s, p) == Got(c, p + 6)
  {
    var n := c as nat;
    assert HexDigit(s[p + 2]) == 0 && HexDigit(s[p + 3]) == 0;
    assert HexDigit(s[p + 4]) == n / 16 && HexDigit(s[p + 5]) == n % 16;
    assert HexValue(s, p + 2) == n;
    assert IsHex(s, p + 2);
  }

  lemma OneThen(s: string, p: nat, c: char, rest: string)
    requires StartsAt(s, p, [c] + rest)
    ensures p < |s| && s[p] == c && StartsAt(s, p + 1, rest)
  {
    Starts(s, p, [c], rest);
    StartsWith(s, p, [c]);
    assert s[p] == [c][0];
  }

  /** A quoted string is read back as what was quoted, whatever bytes it has. */
  lemma {:induction false} ReadsQuoted(s: string, p: nat, t: string)
    requires StartsAt(s, p, EscapeAll(t) + "\"")
    ensures Text(s, p) == Got(t, p + |EscapeAll(t)| + 1)
    decreases |t|
  {
    hide StartsAt, Escape, Character;
    if t == [] {
      assert EscapeAll(t) + "\"" == ['\"'] + [];
      OneThen(s, p, '\"', []);
    } else {
      var e, rest := Escape(t[0]), EscapeAll(t[1..]);
      assert EscapeAll(t) + "\"" == e + (rest + "\"");
      Starts(s, p, e, rest + "\"");
      ReadsEscape(s, p, t[0]);
      ReadsQuoted(s, p + |e|, t[1..]);
      assert t == [t[0]] + t[1..];
    }
  }

  /** What may follow a value: a number would go on over anything else. */
  predicate Ends(s: string, p: nat) {
    p >= |s| || IsSpace(s[p]) || s[p] == ',' || s[p] == ']' || s[p] == '}'
  }

  lemma {:induction false} ReadsDigits(s: string, p: nat, t: string)
    requires StartsAt(s, p, t) && (forall i | 0 <= i < |t| :: IsDigit(t[i])) && Ends(s, p + |t|)
    ensures Digits(s, p) == p + |t|
    decreases |t|
  {
    if t != [] {
      StartsWith(s, p, t);
      assert s[p + 1..p + 1 + |t[1..]|] == t[1..];
      ReadsDigits(s, p + 1, t[1..]);
    }
  }

  lemma ReadsNumber(s: string, p: nat, n: nat)
    requires StartsAt(s, p, Numbers.Decimal(n)) && Ends(s, p + |Numbers.Decimal(n)|)
    ensures p < |s| && IsDigit(s[p]) && Parse(s, p) == Got(JNumber(Numbers.Decimal(n)), p + |Numbers.Decimal(n)|)
  {
    hide Digits, Numbers.Decimal, Numbers.Value;
    var t := Numbers.Decimal(n);
    StartsWith(s, p, t);
    ReadsDigits(s, p, t);
    assert s[p] == t[0] && IsDigit(s[p]);
    ParseIsNumber(s, p);
  }

  lemma ParseIsNumber(s: string, p: nat)
    requires p < |s| && IsDigit(s[p])
    ensures Parse(s, p) == Number(s, p)
  {
    hide Number;
    assert Skip(s, p) == p;
    forall t | t == "null" || t == "true" || t == "false"
      ensures !StartsAt(s, p, t)
    {
      if StartsAt(s, p, t) {
        StartsWith(s, p, t);
      }
    }
  }

  /** White space before a value does not matter. */
  lemma ParseSkips(s: string, p: nat, w: string)
    requires StartsAt(s, p, w) && Blank(w)
    ensures Parse(s, p) == Parse(s, p + |w|)
  {
    SkipsBlank(s, p, w);
  }

  /** A break and the character behind it. */
  lemma Closes(s: string, p: nat, w: string, c: char)
    requires StartsAt(s, p, w + [c]) && Blank(w) && (c == ',' || c == ']' || c == '}')
    ensures Ends(s, p) && Skip(s, p) == p + |w| < |s| && s[p + |w|] == c
  {
    Starts(s, p, w, [c]);
    StartsWith(s, p, w + [c]);
    SkipsBlank(s, p, w);
    assert s[p + |w|] == c;
  }

  /** The first character of a value begins a value. */
  predicate Begins(c: char) {
    c == 'n' || c == '\"' || c == '[' || c == '{' || IsDigit(c)
  }

  /** The text of a value, followed by what may follow one, is read back as the value meant. */
  lemma Reads(st: Style, s: string, p: nat, v: Out, d: nat)
    requires PlainKeys(v) && StartsAt(s, p, Rendered(st, v, d)) && Ends(s, p + |Rendered(st, v, d)|)
    ensures p < |s| && Begins(s[p]) && Parse(s, p) == Got(Meaning(v), p + |Rendered(st, v, d)|)
    decreases v, 3
  {
    hide Number, Items, Members, Text, Skip, StartsAt, Ends, Parse, Numbers.Decimal, HexText, EscapeAll, ItemsText, MembersText, MeaningAll, MeaningMembers, Break;
    match v
    case Null =>
      ReadsNull(s, p);
    case UInt(n) => ReadsNumber(s, p, n);
    case Hex(n) => ReadsHex(s, p, n);
    case Str(t) => ReadsString(s, p, t);
    case Pair(a, b) => ReadsPair(st, s, p, a, b, d);
    case List(vs) => ReadsList(st, s, p, vs, d);
    case Object(ms) => ReadsObject(st, s, p, ms, d);
  }

  lemma ReadsHex(s: string, p: nat, n: nat)
    requires StartsAt(s, p, "\"0x" + HexText(n) + "\"")
    ensures p < |s| && Begins(s[p]) && Parse(s, p) == Got(JString("0x" + HexText(n)), p + |HexText(n)| + 4)
  {
    hide StartsAt, Text, Parse, Skip, HexText, EscapeAll;
    var t := "0x" + HexText(n);
    HexIsPlain(n);
    EscapePlain(t);
    HexQuoted(HexText(n));
    ReadsString(s, p, t);
  }

  lemma HexQuoted(h: string)
    ensures "\"0x" + h + "\"" == "\"" + ("0x" + h) + "\""
  {
  }

  lemma HexIsPlain(n: nat)
    ensures AllPlain("0x" + HexText(n))
  {
  }

  lemma ReadsNull(s: string, p: nat)
    requires StartsAt(s, p, "null")
    ensures p < |s| && s[p] == 'n' && Parse(s, p) == Got(JNull, p + 4)
  {
    StartsWith(s, p, "null");
    assert s[p] == 'n' && Skip(s, p) == p;
  }

  lemma ReadsString(s: string, p: nat, t: string)
    requires StartsAt(s, p, Quote(t))
    ensures p < |s| && Begins(s[p]) && Parse(s, p) == Got(JString(t), p + |Quote(t)|)
  {
    assert Quote(t) == "\"" + (EscapeAll(t) + "\"");
    Starts(s, p, "\"", EscapeAll(t) + "\"");
    StartsWith(s, p, "\"");
    assert s[p] == '\"';
    ReadsQuoted(s, p + 1, t);
  }

  lemma ReadsPair(st: Style, s: string, p: nat, a: nat, b: nat, d: nat)
    requires StartsAt(s, p, Rendered(st, Pair(a, b), d))
    ensures p < |s| && s[p] == '[' && Parse(s, p) == Got(Meaning(Pair(a, b)), p + |Rendered(st, Pair(a, b), d)|)
  {
    hide Number, Numbers.Decimal, Numbers.Value, Digits, Parse, Items, Skip, StartsAt;
    var x, y := Numbers.Decimal(a), Numbers.Decimal(b);
    PairText(s, p, x, y);
    var q := p + 1 + |x|;
    ReadsNumber(s, p + 1, a);
    ReadsNumber(s, q + 1, b);
    var va, vb := JNumber(x), JNumber(y);
    ItemsGoOn(s, p + 1, [], va, q);
    ItemsEnd(s, q + 1, [] + [va], vb, q + 1 + |y|, q + 1 + |y|);
    assert [] + [va] + [vb] == [va, vb];
    SkipsTo(s, p + 1, "");
    OpensList(s, p);
  }

  lemma PairText(s: string, p: nat, x: string, y: string)
    requires StartsAt(s, p, "[" + (x + ("," + (y + "]"))))
    ensures var q := p + 1 + |x|;
            && q + 1 + |y| < |s| && s[p] == '[' && StartsAt(s, p + 1, x) && s[q] == ',' && StartsAt(s, q + 1, y)
            && s[q + 1 + |y|] == ']' && Skip(s, q + 1 + |y|) == q + 1 + |y|
  {
    hide StartsAt, Skip;
    OneThen(s, p, '[', x + ("," + (y + "]")));
    Starts(s, p + 1, x, "," + (y + "]"));
    PairTail(s, p + 1 + |x|, y);
  }

  lemma PairTail(s: string, q: nat, y: string)
    requires StartsAt(s, q, "," + (y + "]"))
    ensures q + 1 + |y| < |s| && s[q] == ',' && StartsAt(s, q + 1, y)
    ensures s[q + 1 + |y|] == ']' && Skip(s, q + 1 + |y|) == q + 1 + |y|
  {
    hide StartsAt;
    OneThen(s, q, ',', y + "]");
    Starts(s, q + 1, y, "]");
    assert "]" == [']'] + [];
    OneThen(s, q + 1 + |y|, ']', []);
  }

  // What the reader does at a list or an object, step by step

  lemma OpensList(s: string, p: nat)
    requires p < |s| && s[p] == '['
    ensures var i := Skip(s, p + 1);
            Parse(s, p) == if i < |s| && s[i] == ']' then Got(JArray([]), i + 1) else Items(s, p + 1, [])
  {
  }

  lemma OpensObject(s: string, p: nat)
    requires p < |s| && s[p] == '{'
    ensures var i := Skip(s, p + 1);
            Parse(s, p) == if i < |s| && s[i] == '}' then Got(JObject([]), i + 1) else Members(s, p + 1, [])
  {
  }

  lemma ItemsGoOn(s: string, p: nat, before: seq<Value>, v: Value, q: nat)
    requires p <= |s| && Parse(s, p) == Got(v, q) && q < |s| && s[q] == ','
    ensures Items(s, p, before) == Items(s, q + 1, before + [v])
  {
    hide Number, Members;
    assert Skip(s, q) == q;
  }

  lemma ItemsEnd(s: string, p: nat, before: seq<Value>, v: Value, q: nat, e: nat)
    requires p <= |s| && Parse(s, p) == Got(v, q) && q <= |s| && Skip(s, q) == e < |s| && s[e] == ']'
    ensures Items(s, p, before) == Got(JArray(before + [v]), e + 1)
  {
  }

  /** A member's key and value. */
  predicate HasMember(s: string, p: nat, m: (string, Value), q: nat)
    requires p <= |s|
  {
    var k := Skip(s, p);
    && k < |s| && s[k] == '\"' && Text(s, k + 1).Got? && Text(s, k + 1).value == m.0
    && var c := Skip(s, Text(s, k + 1).at);
    && c < |s| && s[c] == ':' && Parse(s, c + 1) == Got(m.1, q)
  }

  lemma IsMember(s: string, p: nat, k: nat, b: nat, m: (string, Value), q: nat)
    requires p <= |s| && Skip(s, p) == k < |s| && s[k] == '\"'
    requires var c := k + |m.0| + 2;
             c < |s| && Text(s, k + 1) == Got(m.0, c) && s[c] == ':' && Skip(s, c) == c && b <= |s| && Parse(s, c + 1) == Parse(s, b)
    requires b <= |s| && Parse(s, b) == Got(m.1, q)
    ensures HasMember(s, p, m, q)
  {
    hide Skip, Text, Parse;
  }

  lemma MembersGoOn(s: string, p: nat, before: seq<(string, Value)>, m: (string, Value), q: nat)
    requires p <= |s| && HasMember(s, p, m, q) && q < |s| && s[q] == ','
    ensures Members(s, p, before) == Members(s, q + 1, before + [m])
  {
    hide Number, Items, Parse, Text;
    assert Skip(s, q) == q;
  }

  lemma MembersEnd(s: string, p: nat, before: seq<(string, Value)>, m: (string, Value), q: nat, e: nat)
    requires p <= |s| && HasMember(s, p, m, q) && q <= |s| && Skip(s, q) == e < |s| && s[e] == '}'
    ensures Members(s, p, before) == Got(JObject(before + [m]), e + 1)
  {
  }

  /** The text of a value's successors: the end of the container, or a comma and the others. */
  lemma AfterItem(s: string, q: nat, tail: string, w: string, c: char, last: bool)
    requires StartsAt(s, q, if last then w + [c] else "," + (tail + (w + [c]))) && Blank(w) && (c == ']' || c == '}')
    ensures Ends(s, q) && q < |s|
    ensures last ==> Skip(s, q) == q + |w| < |s| && s[q + |w|] == c
    ensures !last ==> s[q] == ',' && StartsAt(s, q + 1, tail + (w + [c]))
  {
    if last {
      Closes(s, q, w, c);
    } else {
      Starts(s, q, ",", tail + (w + [c]));
      StartsWith(s, q, ",");
      assert ","[0] == ',';
    }
  }

  lemma SkipsTo(s: string, p: nat, w: string)
    requires StartsAt(s, p, w) && Blank(w) && p + |w| < |s| && Begins(s[p + |w|])
    ensures p <= |s| && Skip(s, p) == p + |w|
  {
    SkipsBlank(s, p, w);
  }

  lemma ReadsList(st: Style, s: string, p: nat, vs: seq<Out>, d: nat)
    requires PlainKeys(List(vs)) && StartsAt(s, p, Rendered(st, List(vs), d))
    ensures p < |s| && s[p] == '[' && Parse(s, p) == Got(Meaning(List(vs)), p + |Rendered(st, List(vs), d)|)
    decreases vs, 2
  {
    hide Items, Rendered, Break, Number, Parse, Skip, StartsAt;
    var items, close := ItemsText(st, vs, d + 1), Break(st, d) + "]";
    ListText(st, vs, d);
    OneThen(s, p, '[', items + close);
    OpensList(s, p);
    if vs == [] {
      assert items + close == close;
      Closes(s, p + 1, Break(st, d), ']');
    } else {
      ReadsItems(st, s, p + 1, vs, d + 1, d, []);
      assert [] + MeaningAll(vs) == MeaningAll(vs);
    }
  }

  lemma ListText(st: Style, vs: seq<Out>, d: nat)
    ensures Rendered(st, List(vs), d) == "[" + (ItemsText(st, vs, d + 1) + (Break(st, d) + "]"))
  {
  }

  lemma ReadsItems(st: Style, s: string, p: nat, vs: seq<Out>, d: nat, out: nat, before: seq<Value>)
    requires vs != [] && (forall i | 0 <= i < |vs| :: PlainKeys(vs[i]))
    requires StartsAt(s, p, ItemsText(st, vs, d) + (Break(st, out) + "]"))
    ensures var q := p + |ItemsText(st, vs, d)| + |Break(st, out)| + 1;
            Items(s, p, before) == Got(JArray(before + MeaningAll(vs)), q)
    ensures Skip(s, p) < |s| && s[Skip(s, p)] != ']'
    decreases vs, 1
  {
    hide Rendered, Break, Number, Parse, Skip, StartsAt, Items, Blank, Ends, ItemsText, PlainKeys, Meaning, MeaningAll;
    MeaningFirst(vs, before);
    EachPlain(vs);
    var w, r := Break(st, d), Rendered(st, vs[0], d);
    var more := if |vs| == 1 then [] else ItemsText(st, vs[1..], d);
    var q := p + |w| + |r|;
    ItemsShape(st, s, p, vs, d, out);
    Reads(st, s, p + |w|, vs[0], d);
    ParseSkips(s, p, w);
    SkipsTo(s, p, w);
    var v := Meaning(vs[0]);
    assert Parse(s, p) == Got(v, q);
    if |vs| > 1 {
      ReadsItems(st, s, q + 1, vs[1..], d, out, before + [v]);
      ItemsGoOn(s, p, before, v, q);
    } else {
      ItemsEnd(s, p, before, v, q, q + |Break(st, out)|);
    }
  }

  lemma Spliced<T>(before: seq<T>, v: T, rest: seq<T>)
    ensures before + ([v] + rest) == before + [v] + rest
    ensures rest == [] ==> before + ([v] + rest) == before + [v]
  {
  }

  lemma MeaningFirst(vs: seq<Out>, before: seq<Value>)
    requires vs != []
    ensures before + MeaningAll(vs) == before + [Meaning(vs[0])] + MeaningAll(vs[1..])
    ensures |vs| == 1 ==> before + MeaningAll(vs) == before + [Meaning(vs[0])]
  {
    hide MeaningAll;
    MeaningCons(vs);
    Spliced(before, Meaning(vs[0]), MeaningAll(vs[1..]));
  }

  lemma MeaningCons(vs: seq<Out>)
    requires vs != []
    ensures MeaningAll(vs) == [Meaning(vs[0])] + MeaningAll(vs[1..])
    ensures |vs| == 1 ==> MeaningAll(vs[1..]) == []
  {
    hide Meaning;
  }

  lemma EachPlain(vs: seq<Out>)
    requires vs != [] && forall i | 0 <= i < |vs| :: PlainKeys(vs[i])
    ensures PlainKeys(vs[0]) && forall i | 0 <= i < |vs[1..]| :: PlainKeys(vs[1..][i])
  {
  }

  lemma MeaningFirstMember(ms: seq<Member>, before: seq<(string, Value)>)
    requires ms != []
    ensures before + MeaningMembers(ms) == before + [(ms[0].key, Meaning(ms[0].value))] + MeaningMembers(ms[1..])
    ensures |ms| == 1 ==> before + MeaningMembers(ms) == before + [(ms[0].key, Meaning(ms[0].value))]
  {
    hide MeaningMembers;
    MeaningConsMember(ms);
    Spliced(before, (ms[0].key, Meaning(ms[0].value)), MeaningMembers(ms[1..]));
  }

  lemma MeaningConsMember(ms: seq<Member>)
    requires ms != []
    ensures MeaningMembers(ms) == [(ms[0].key, Meaning(ms[0].value))] + MeaningMembers(ms[1..])
    ensures |ms| == 1 ==> MeaningMembers(ms[1..]) == []
  {
    hide Meaning;
  }

  /** The first item of a list's text, and what is behind it. */
  lemma ItemsShape(st: Style, s: string, p: nat, vs: seq<Out>, d: nat, out: nat)
    requires vs != [] && StartsAt(s, p, ItemsText(st, vs, d) + (Break(st, out) + "]"))
    ensures var w, r := Break(st, d), Rendered(st, vs[0], d);
            var more := if |vs| == 1 then [] else ItemsText(st, vs[1..], d);
            var q := p + |w| + |r|;
            && StartsAt(s, p, w) && StartsAt(s, p + |w|, r) && Ends(s, q) && q < |s|
            && |ItemsText(st, vs, d)| == |w| + |r| + (if |vs| == 1 then 0 else 1 + |more|)
            && (|vs| == 1 ==> Skip(s, q) == q + |Break(st, out)| < |s| && s[q + |Break(st, out)|] == ']')
            && (|vs| > 1 ==> s[q] == ',' && StartsAt(s, q + 1, ItemsText(st, vs[1..], d) + (Break(st, out) + "]")))
  {
    hide Rendered, Break, Skip, StartsAt, Blank, Ends, ItemsText;
    var w, r, close := Break(st, d), Rendered(st, vs[0], d), Break(st, out) + "]";
    var more := if |vs| == 1 then [] else ItemsText(st, vs[1..], d);
    var rest := if |vs| == 1 then close else "," + (more + close);
    ItemsSplit(st, vs, d, close);
    Starts(s, p, w, r + rest);
    Starts(s, p + |w|, r, rest);
    AfterItem(s, p + |w| + |r|, more, Break(st, out), ']', |vs| == 1);
  }

  lemma ItemsSplit(st: Style, vs: seq<Out>, d: nat, close: string)
    requires vs != []
    ensures var more := if |vs| == 1 then [] else ItemsText(st, vs[1..], d);
            var rest := if |vs| == 1 then close else "," + (more + close);
            && ItemsText(st, vs, d) + close == Break(st, d) + (Rendered(st, vs[0], d) + rest)
            && |ItemsText(st, vs, d)| == |Break(st, d)| + |Rendered(st, vs[0], d)| + (if |vs| == 1 then 0 else 1 + |more|)
  {
    hide Rendered, Break;
  }

  lemma ReadsObject(st: Style, s: string, p: nat, ms: seq<Member>, d: nat)
    requires PlainKeys(Object(ms)) && StartsAt(s, p, Rendered(st, Object(ms), d))
    ensures p < |s| && s[p] == '{' && Parse(s, p) == Got(Meaning(Object(ms)), p + |Rendered(st, Object(ms), d)|)
    decreases ms, 2
  {
    hide Members, Rendered, Break, Number, Parse, Skip, StartsAt;
    var members, close := MembersText(st, ms, d + 1), Break(st, d) + "}";
    ObjectText(st, ms, d);
    OneThen(s, p, '{', members + close);
    OpensObject(s, p);
    if ms == [] {
      assert members + close == close;
      Closes(s, p + 1, Break(st, d), '}');
    } else {
      ReadsMembers(st, s, p + 1, ms, d + 1, d, []);
      assert [] + MeaningMembers(ms) == MeaningMembers(ms);
    }
  }

  lemma ObjectText(st: Style, ms: seq<Member>, d: nat)
    ensures Rendered(st, Object(ms), d) == "{" + (MembersText(st, ms, d + 1) + (Break(st, d) + "}"))
  {
  }

  /** A key, its colon, and where the value begins. */
  lemma ReadsKey(st: Style, s: string, p: nat, key: string, rest: string)
    requires AllPlain(key) && StartsAt(s, p, "\"" + (key + ("\"" + (Colon(st) + rest))))
    ensures var c := p + |key| + 2;
            && p < c < |s| && s[p] == '\"' && Text(s, p + 1) == Got(key, c) && s[c] == ':' && Skip(s, c) == c
            && StartsAt(s, p + |key| + 2 + |Colon(st)|, rest)
            && Parse(s, c + 1) == Parse(s, c + |Colon(st)|)
  {
    hide Parse, StartsAt, Text, Skip, Colon;
    var colon := Colon(st);
    OneThen(s, p, '\"', key + ("\"" + (colon + rest)));
    assert key + ("\"" + (colon + rest)) == (key + "\"") + (colon + rest);
    Starts(s, p + 1, key + "\"", colon + rest);
    EscapePlain(key);
    ReadsQuoted(s, p + 1, key);
    var c := p + |key| + 2;
    Starts(s, c, colon, rest);
    ReadsColon(st, s, c);
  }

  lemma ReadsColon(st: Style, s: string, c: nat)
    requires StartsAt(s, c, Colon(st))
    ensures c < |s| && s[c] == ':' && Skip(s, c) == c && c + |Colon(st)| <= |s|
    ensures Parse(s, c + 1) == Parse(s, c + |Colon(st)|)
  {
    hide Parse, StartsAt;
    var w := if st.minify then "" else " ";
    assert Colon(st) == [':'] + w;
    OneThen(s, c, ':', w);
    ParseSkips(s, c + 1, w);
    StartsWith(s, c, Colon(st));
  }

  lemma ReadsMembers(st: Style, s: string, p: nat, ms: seq<Member>, d: nat, out: nat, before: seq<(string, Value)>)
    requires ms != [] && (forall i | 0 <= i < |ms| :: AllPlain(ms[i].key) && PlainKeys(ms[i].value))
    requires StartsAt(s, p, MembersText(st, ms, d) + (Break(st, out) + "}"))
    ensures var q := p + |MembersText(st, ms, d)| + |Break(st, out)| + 1;
            Members(s, p, before) == Got(JObject(before + MeaningMembers(ms)), q)
    ensures Skip(s, p) < |s| && s[Skip(s, p)] != '}'
    decreases ms, 1
  {
    hide Rendered, Break, Number, Parse, Text, Colon, Skip, StartsAt, Members, Blank, Ends, MembersText, Meaning,
         MeaningMembers, HasMember, PlainKeys, AllPlain;
    MeaningFirstMember(ms, before);
    var w, r := Break(st, d), Rendered(st, ms[0].value, d);
    var key := ms[0].key;
    var b := p + |w| + |key| + 2 + |Colon(st)|;
    var q := b + |r|;
    MembersShape(st, s, p, ms, d, out);
    SkipsTo(s, p, w);
    Reads(st, s, b, ms[0].value, d);
    var v := (key, Meaning(ms[0].value));
    IsMember(s, p, p + |w|, b, v, q);
    if |ms| > 1 {
      ReadsMembers(st, s, q + 1, ms[1..], d, out, before + [v]);
      MembersGoOn(s, p, before, v, q);
    } else {
      MembersEnd(s, p, before, v, q, q + |Break(st, out)|);
    }
  }

  /** The first member of an object's text, and what is behind it. */
  lemma MembersShape(st: Style, s: string, p: nat, ms: seq<Member>, d: nat, out: nat)
    requires ms != [] && AllPlain(ms[0].key) && StartsAt(s, p, MembersText(st, ms, d) + (Break(st, out) + "}"))
    ensures var w, r := Break(st, d), Rendered(st, ms[0].value, d);
            var more := if |ms| == 1 then [] else MembersText(st, ms[1..], d);
            var k := p + |w|;
            var c := k + |ms[0].key| + 2;
            var b := c + |Colon(st)|;
            var q := b + |r|;
            && StartsAt(s, p, w) && c < |s| && s[k] == '\"' && Text(s, k + 1) == Got(ms[0].key, c) && s[c] == ':'
            && Skip(s, c) == c && b <= |s| && Parse(s, c + 1) == Parse(s, b)
            && StartsAt(s, b, r) && Ends(s, q) && q < |s|
            && |MembersText(st, ms, d)| == q - p + (if |ms| == 1 then 0 else 1 + |more|)
            && (|ms| == 1 ==> Skip(s, q) == q + |Break(st, out)| < |s| && s[q + |Break(st, out)|] == '}')
            && (|ms| > 1 ==> s[q] == ',' && StartsAt(s, q + 1, MembersText(st, ms[1..], d) + (Break(st, out) + "}")))
  {
    hide Rendered, Break, Skip, StartsAt, Blank, Ends, MembersText, Text, Parse, Colon;
    var w, r, close := Break(st, d), Rendered(st, ms[0].value, d), Break(st, out) + "}";
    var more := if |ms| == 1 then [] else MembersText(st, ms[1..], d);
    var rest := if |ms| == 1 then close else "," + (more + close);
    MembersSplit(st, ms, d, close);
    Starts(s, p, w, "\"" + (ms[0].key + ("\"" + (Colon(st) + (r + rest)))));
    ReadsKey(st, s, p + |w|, ms[0].key, r + rest);
    var b := p + |w| + |ms[0].key| + 2 + |Colon(st)|;
    Starts(s, b, r, rest);
    StartsWith(s, b, r);
    AfterItem(s, b + |r|, more, Break(st, out), '}', |ms| == 1);
  }

  lemma MembersSplit(st: Style, ms: seq<Member>, d: nat, close: string)
    requires ms != []
    ensures var more := if |ms| == 1 then [] else MembersText(st, ms[1..], d);
            var rest := if |ms| == 1 then close else "," + (more + close);
            var r := Rendered(st, ms[0].value, d);
            && MembersText(st, ms, d) + close == Break(st, d) + ("\"" + (ms[0].key + ("\"" + (Colon(st) + (r + rest)))))
            && |MembersText(st, ms, d)| ==
               |Break(st, d)| + |ms[0].key| + 2 + |Colon(st)| + |r| + (if |ms| == 1 then 0 else 1 + |more|)
  {
    hide Rendered, Break, Colon, MembersText, MemberText;
    var more := if |ms| == 1 then [] else MembersText(st, ms[1..], d);
    var tail := if |ms| == 1 then [] else "," + more;
    FirstMember(st, ms, d);
    Regrouped(Break(st, d), MemberText(st, ms[0], d), tail, close);
    assert |ms| > 1 ==> tail + close == "," + (more + close);
    assert |ms| == 1 ==> tail + close == close;
    MemberThen(st, ms[0], d, tail + close);
  }

  lemma Regrouped(a: string, b: string, c: string, d: string)
    ensures a + (b + c) + d == a + (b + (c + d))
  {
  }

  lemma FirstMember(st: Style, ms: seq<Member>, d: nat)
    requires ms != []
    ensures MembersText(st, ms, d) ==
            Break(st, d) + (MemberText(st, ms[0], d) + if |ms| == 1 then [] else "," + MembersText(st, ms[1..], d))
  {
  }

  lemma MemberThen(st: Style, m: Member, d: nat, rest: string)
    ensures MemberText(st, m, d) + rest == "\"" + (m.key + ("\"" + (Colon(st) + (Rendered(st, m.value, d) + rest))))
    ensures |MemberText(st, m, d)| == |m.key| + 2 + |Colon(st)| + |Rendered(st, m.value, d)|
  {
    hide Rendered, Colon;
    var a, b, c, e, r := "\"", m.key, "\"", Colon(st), Rendered(st, m.value, d);
    assert e + r + rest == e + (r + rest);
    assert c + (e + r) + rest == c + (e + r + rest);
    assert b + (c + (e + r)) + rest == b + (c + (e + r) + rest);
    assert a + (b + (c + (e + r))) + rest == a + (b + (c + (e + r)) + rest);
  }

  /** Any written value is a document that reads back as the value meant: the same in every style,
      with and without the newline that ends a line of output. */
  lemma ReadsBack(st: Style, v: Out, newline: bool)
    requires PlainKeys(v)
    ensures var s := Rendered(st, v, 0) + if newline then "\n" else "";
            Document(s) == Got(Meaning(v), |s|)
  {
    var t, e := Rendered(st, v, 0), if newline then "\n" else "";
    var s := t + e;
    assert s[0..|t|] == t && s[|t|..] == e;
    assert newline ==> s[|t|] == '\n';
    Reads(st, s, 0, v, 0);
    assert Skip(s, |t|) == |s|;
  }

  // The characters themselves

  /** The escapes of RFC 8259 section 7, by code. */
  lemma EscapesMean()
    ensures Character("\\\"", 0) == Got(34 as char, 2) && Character("\\\\", 0) == Got(92 as char, 2)
    ensures Character("\\/", 0) == Got(47 as char, 2) && Character("\\b", 0) == Got(8 as char, 2)
    ensures Character("\\f", 0) == Got(12 as char, 2) && Character("\\n", 0) == Got(10 as char, 2)
    ensures Character("\\r", 0) == Got(13 as char, 2) && Character("\\t", 0) == Got(9 as char, 2)
    ensures Character("\\u001F", 0) == Got(31 as char, 6) && Character("\\u0041", 0) == Got(65 as char, 6)
  {
    var a, b := "\\u001F", "\\u0041";
    assert HexValue(a, 2) == 31 && HexValue(b, 2) == 65;
    assert IsHex(a, 2) && IsHex(b, 2);
  }

  /** The digits of a hexadecimal number in lower case. */
  function HexDigitOf(c: char): (d: int)
    ensures d < 16
  {
    if '0' <= c <= '9' then c as int - '0' as int else if 'a' <= c <= 'f' then c as int - 'a' as int + 10 else -1
  }

  function HexSpelled(s: string): int {
    if s == [] then 0 else 16 * HexSpelled(s[..|s| - 1]) + HexDigitOf(s[|s| - 1])
  }

  /** json_hex writes the value in base 16, without leading zeros. */
  lemma {:induction false} HexSpells(n: nat)
    ensures HexSpelled(HexText(n)) == n && (forall i | 0 <= i < |HexText(n)| :: HexDigitOf(HexText(n)[i]) >= 0)
    ensures n > 0 ==> HexText(n)[0] != '0'
  {
    var d := n % 16;
    assert HexDigitOf(HexChar(d)) == d;
    if n >= 16 {
      HexSpells(n / 16);
      var t := HexText(n / 16);
      assert HexText(n) == t + [HexChar(d)] && HexText(n)[..|t|] == t;
    } else {
      assert HexText(n)[..0] == [];
    }
  }
}
