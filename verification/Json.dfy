/** A reader of JSON texts (RFC 8259, sections 2 to 7). Texts are bytes; a number is kept as its text. */
module Json {
  datatype Value =
    | JNull
    | JBool(b: bool)
    | JNumber(text: string)
    | JString(s: string)
    | JArray(items: seq<Value>)
    | JObject(members: seq<(string, Value)>)

  /** What was read, and where it ended. */
  datatype Read<T> = Fail | Got(value: T, at: nat)

  predicate IsSpace(c: char) { c == ' ' || c == '\t' || c == '\n' || c == '\r' }

  predicate IsDigit(c: char) { '0' <= c <= '9' }

  /** Past white space. */
  function Skip(s: string, p: nat): (q: nat)
    requires p <= |s|
    ensures p <= q <= |s|
    decreases |s| - p
  {
    if p < |s| && IsSpace(s[p]) then Skip(s, p + 1) else p
  }

  predicate StartsAt(s: string, p: nat, t: string) {
    p + |t| <= |s| && s[p..p + |t|] == t
  }

  /** Past digits. */
  function Digits(s: string, p: nat): (q: nat)
    requires p <= |s|
    ensures p <= q <= |s|
    decreases |s| - p
  {
    if p < |s| && IsDigit(s[p]) then Digits(s, p + 1) else p
  }

  /** int, a frac and an exp behind it (section 6). */
  function Number(s: string, p: nat): (r: Read<Value>)
    requires p < |s|
    ensures r.Got? ==> p < r.at <= |s|
  {
    var i := if s[p] == '-' then p + 1 else p;
    var j := Digits(s, i);
    if j == i || (s[i] == '0' && j > i + 1) then Fail else
    var k := if j < |s| && s[j] == '.' then Digits(s, j + 1) else j;
    if k == j + 1 && s[j] == '.' then Fail else
    if k < |s| && (s[k] == 'e' || s[k] == 'E') then
      var e := if k + 1 < |s| && (s[k + 1] == '+' || s[k + 1] == '-') then k + 2 else k + 1;
      var m := Digits(s, e);
      if m == e then Fail else Got(JNumber(s[p..m]), m)
    else Got(JNumber(s[p..k]), k)
  }

  function HexDigit(c: char): int {
    if '0' <= c <= '9' then c as int - '0' as int
    else if 'a' <= c <= 'f' then c as int - 'a' as int + 10
    else if 'A' <= c <= 'F' then c as int - 'A' as int + 10
    else -1
  }

  predicate IsHex(s: string, p: nat) {
    p + 4 <= |s| && forall i | p <= i < p + 4 :: HexDigit(s[i]) >= 0
  }

  function HexValue(s: string, p: nat): int
    requires p + 4 <= |s|
  {
    ((HexDigit(s[p]) * 16 + HexDigit(s[p + 1])) * 16 + HexDigit(s[p + 2])) * 16 + HexDigit(s[p + 3])
  }

  /** One character of a string, plain or escaped (section 7). Escapes of characters that are more
      than one byte in UTF-8 are not read. */
  function Character(s: string, p: nat): (r: Read<char>)
    requires p < |s|
    ensures r.Got? ==> p < r.at <= |s|
  {
    if s[p] < ' ' || s[p] == '\"' then Fail
    else if s[p] != '\\' then Got(s[p], p + 1)
    else if p + 1 >= |s| then Fail
    else match s[p + 1]
      case '\"' => Got('\"', p + 2)
      case '\\' => Got('\\', p + 2)
      case '/' => Got('/', p + 2)
      case 'b' => Got(8 as char, p + 2)
      case 'f' => Got(12 as char, p + 2)
      case 'n' => Got('\n', p + 2)
      case 'r' => Got('\r', p + 2)
      case 't' => Got('\t', p + 2)
      case 'u' => if IsHex(s, p + 2) && 0 <= HexValue(s, p + 2) < 0x80 then Got(HexValue(s, p + 2) as char, p + 6) else Fail
      case _ => Fail
  }

  /** The rest of a string behind its opening quote. */
  function Text(s: string, p: nat): (r: Read<string>)
    requires p <= |s|
    ensures r.Got? ==> p < r.at <= |s|
    decreases |s| - p
  {
    if p == |s| then Fail
    else if s[p] == '\"' then Got([], p + 1)
    else match Character(s, p)
      case Fail => Fail
      case Got(c, q) =>
        match Text(s, q)
        case Fail => Fail
        case Got(t, e) => Got([c] + t, e)
  }

  /** A value, white space before it allowed. */
  function Parse(s: string, p: nat): (r: Read<Value>)
    requires p <= |s|
    ensures r.Got? ==> p < r.at <= |s|
    decreases |s| - p, 0
  {
    var q := Skip(s, p);
    if q == |s| then Fail
    else if s[q] == '\"' then
      match Text(s, q + 1)
      case Fail => Fail
      case Got(t, e) => Got(JString(t), e)
    else if s[q] == '[' then
      var i := Skip(s, q + 1);
      if i < |s| && s[i] == ']' then Got(JArray([]), i + 1) else Items(s, q + 1, [])
    else if s[q] == '{' then
      var i := Skip(s, q + 1);
      if i < |s| && s[i] == '}' then Got(JObject([]), i + 1) else Members(s, q + 1, [])
    else if StartsAt(s, q, "null") then Got(JNull, q + 4)
    else if StartsAt(s, q, "true") then Got(JBool(true), q + 4)
    else if StartsAt(s, q, "false") then Got(JBool(false), q + 5)
    else Number(s, q)
  }

  /** The items of an array from p on, to its closing bracket. */
  function Items(s: string, p: nat, before: seq<Value>): (r: Read<Value>)
    requires p <= |s|
    ensures r.Got? ==> p < r.at <= |s|
    decreases |s| - p, 1
  {
    match Parse(s, p)
    case Fail => Fail
    case Got(v, q) =>
      var i := Skip(s, q);
      if i == |s| then Fail
      else if s[i] == ',' then Items(s, i + 1, before + [v])
      else if s[i] == ']' then Got(JArray(before + [v]), i + 1)
      else Fail
  }

  /** The members of an object from p on, to its closing brace. */
  function Members(s: string, p: nat, before: seq<(string, Value)>): (r: Read<Value>)
    requires p <= |s|
    ensures r.Got? ==> p < r.at <= |s|
    decreases |s| - p, 1
  {
    var k := Skip(s, p);
    if k == |s| || s[k] != '\"' then Fail
    else match Text(s, k + 1)
      case Fail => Fail
      case Got(key, e) =>
        var c := Skip(s, e);
        if c == |s| || s[c] != ':' then Fail
        else match Parse(s, c + 1)
          case Fail => Fail
          case Got(v, q) =>
            var i := Skip(s, q);
            if i == |s| then Fail
            else if s[i] == ',' then Members(s, i + 1, before + [(key, v)])
            else if s[i] == '}' then Got(JObject(before + [(key, v)]), i + 1)
            else Fail
  }

  /** A document: one value, and white space around it. */
  function Document(s: string): Read<Value> {
    match Parse(s, 0)
    case Fail => Fail
    case Got(v, q) => if Skip(s, q) == |s| then Got(v, |s|) else Fail
  }
}
