/** The syntax tree printer: a node is an object, a list an array, and the writer's calls come in
    the order of the fields. */
module AstPrint {
  import opened JsonText
  import opened JsonWriter
  import Json

  /** A node with the fields its kind has. A string chunk has a length and flags. */
  datatype Ast = Ast(kind: string, len: nat, flag: nat, fields: seq<Field>)

  const ARGSTR := "string"
  const S_TABLE := 0x0f

  /** ast_placeholder: an empty chunk with no flag above those that S_TABLE masks. */
  predicate Placeholder(n: Ast) {
    n.kind == ARGSTR && n.len == 0 && n.flag / (S_TABLE + 1) == 0
  }

  datatype Field = Flat(key: string, value: Out) | Kid(key: string, node: Ast) | Kids(key: string, list: seq<Ast>)

  function NodeOut(n: Ast): (r: Out)
    ensures r.Object?
    decreases n, 1
  {
    Object([Member("kind", Str(n.kind))] + FieldsOut(n.fields))
  }

  function FieldsOut(fs: seq<Field>): (r: seq<Member>)
    ensures |r| == |fs|
    decreases fs
  {
    if fs == [] then [] else [FieldOut(fs[0])] + FieldsOut(fs[1..])
  }

  function FieldOut(f: Field): Member
    decreases f
  {
    match f
    case Flat(k, v) => Member(k, v)
    case Kid(k, n) => Member(k, NodeOut(n))
    case Kids(k, list) => Member(k, List(Shown(list, |list| == 1)))
  }

  /** Placeholders are left out, unless one is all there is. */
  function Shown(list: seq<Ast>, lone: bool): seq<Out>
    decreases list
  {
    if list == [] then []
    else if Placeholder(list[0]) && !lone then Shown(list[1..], lone)
    else [NodeOut(list[0])] + Shown(list[1..], lone)
  }

  function ListOut(list: seq<Ast>): Out { List(Shown(list, |list| == 1)) }

  predicate FieldsFit(n: Ast)
    decreases n
  {
    forall i | 0 <= i < |n.fields| :: FieldFits(n.fields[i])
  }

  /** What the printer is given: literal keys, and pairs only as the value of one. */
  predicate FieldFits(f: Field)
    decreases f
  {
    && AllPlain(f.key)
    && match f
       case Flat(_, v) => (v.Pair? || Writable(v)) && PlainKeys(v)
       case Kid(_, n) => FieldsFit(n)
       case Kids(_, list) => forall i | 0 <= i < |list| :: FieldsFit(list[i])
  }

  predicate MemberFits(m: Member) {
    (m.value.Pair? || Writable(m.value)) && AllPlain(m.key) && PlainKeys(m.value)
  }

  lemma {:induction false} NodeFits(n: Ast)
    requires FieldsFit(n)
    ensures Writable(NodeOut(n)) && PlainKeys(NodeOut(n))
    decreases n, 1
  {
    FieldsFitOut(n.fields);
    var ms := [Member("kind", Str(n.kind))] + FieldsOut(n.fields);
    forall i | 0 <= i < |ms|
      ensures MemberFits(ms[i])
    {
      if i > 0 {
        assert ms[i] == FieldsOut(n.fields)[i - 1];
      }
    }
  }

  lemma {:induction false} FieldsFitOut(fs: seq<Field>)
    requires forall i | 0 <= i < |fs| :: FieldFits(fs[i])
    ensures forall i | 0 <= i < |fs| :: MemberFits(FieldsOut(fs)[i])
    decreases fs
  {
    if fs != [] {
      FieldsFitOut(fs[1..]);
      FieldFitsOut(fs[0]);
    }
  }

  lemma FieldFitsOut(f: Field)
    requires FieldFits(f)
    ensures MemberFits(FieldOut(f))
    decreases f, 1
  {
    match f
    case Flat(_, _) =>
    case Kid(_, n) => NodeFits(n);
    case Kids(_, list) => ListFits(list, |list| == 1);
  }

  lemma {:induction false} ListFits(list: seq<Ast>, lone: bool)
    requires forall i | 0 <= i < |list| :: FieldsFit(list[i])
    ensures forall i | 0 <= i < |Shown(list, lone)| :: Writable(Shown(list, lone)[i]) && PlainKeys(Shown(list, lone)[i])
    decreases list
  {
    if list != [] {
      NodeFits(list[0]);
      ListFits(list[1..], lone);
    }
  }

  lemma {:induction false} FieldsSnoc(fs: seq<Field>, k: nat)
    requires k < |fs|
    ensures FieldsOut(fs[..k + 1]) == FieldsOut(fs[..k]) + [FieldOut(fs[k])]
    decreases k
  {
    if k == 0 {
      assert fs[..1][1..] == [];
    } else {
      FieldsSnoc(fs[1..], k - 1);
      assert fs[..k + 1][1..] == fs[1..][..k] && fs[..k][1..] == fs[1..][..k - 1];
    }
  }

  lemma {:induction false} ShownSnoc(list: seq<Ast>, lone: bool, k: nat)
    requires k < |list|
    ensures Shown(list[..k + 1], lone) ==
            Shown(list[..k], lone) + if Placeholder(list[k]) && !lone then [] else [NodeOut(list[k])]
    decreases k
  {
    if k == 0 {
      assert list[..1][1..] == [];
    } else {
      ShownSnoc(list[1..], lone, k - 1);
      assert list[..k + 1][1..] == list[1..][..k] && list[..k][1..] == list[1..][..k - 1];
    }
  }

  /** One more item behind those already written. */
  lemma ItemWritten(st: Style, base: string, vs: seq<Out>, v: Out, d: nat)
    requires d > 0
    ensures base + ItemsText(st, vs, d) + Lead(st, d, vs != [], false) + Rendered(st, v, d) == base + ItemsText(st, vs + [v], d)
  {
    hide Lead, Rendered, ItemsText;
    var all := vs + [v];
    ItemsSnoc(st, all, |vs|, d);
    assert all[..|vs| + 1] == all && all[..|vs|] == vs;
    Regroup(base, ItemsText(st, vs, d), Lead(st, d, vs != [], false), Rendered(st, v, d));
  }

  lemma MemberWritten(st: Style, base: string, ms: seq<Member>, m: Member, d: nat)
    requires d > 0
    ensures base + MembersText(st, ms, d) + Lead(st, d, ms != [], false) + MemberText(st, m, d) == base + MembersText(st, ms + [m], d)
  {
    hide Lead, MemberText, MembersText;
    var all := ms + [m];
    MembersSnoc(st, all, |ms|, d);
    assert all[..|ms| + 1] == all && all[..|ms|] == ms;
    Regroup(base, MembersText(st, ms, d), Lead(st, d, ms != [], false), MemberText(st, m, d));
  }

  /** ast_node */
  method AstNode(w: Writer, n: Ast)
    requires FieldsFit(n)
    modifies w
    ensures w.out == old(w.out) + old(w.Leads()) + Rendered(w.st, NodeOut(n), w.depth)
    ensures w.depth == old(w.depth) && !w.key && w.comma == (w.depth > 0)
    decreases n, 1
  {
    hide Lead, Rendered, MemberText, MembersText, Break, FieldsOut;
    w.Open('{');
    ghost var base := w.out;
    ghost var ms: seq<Member> := [];
    NoText(w.st, w.depth);
    MemberWritten(w.st, base, ms, Member("kind", Str(n.kind)), w.depth);
    w.WriteMember(Member("kind", Str(n.kind)));
    ms := ms + [Member("kind", Str(n.kind))];
    var i := 0;
    assert n.fields[..0] == [];
    NoFields();
    while i < |n.fields|
      invariant i <= |n.fields| && ms == [Member("kind", Str(n.kind))] + FieldsOut(n.fields[..i])
      invariant w.out == base + MembersText(w.st, ms, w.depth) && w.depth == old(w.depth) + 1 && !w.key && w.comma
    {
      MemberWritten(w.st, base, ms, FieldOut(n.fields[i]), w.depth);
      AstField(w, n.fields[i]);
      FieldsSnoc(n.fields, i);
      ms := ms + [FieldOut(n.fields[i])];
      i := i + 1;
    }
    assert n.fields[..i] == n.fields;
    w.Close('}');
    ObjectText(w.st, ms, w.depth);
  }

  lemma NoFields()
    ensures FieldsOut([]) == []
  {
  }

  lemma NoText(st: Style, d: nat)
    ensures MembersText(st, [], d) == [] && ItemsText(st, [], d) == []
  {
  }

  /** One field: json_kstr and the like, ast_kid, ast_kids. */
  method AstField(w: Writer, f: Field)
    requires FieldFits(f) && w.depth > 0
    modifies w
    ensures w.out == old(w.out) + old(w.Leads()) + MemberText(w.st, FieldOut(f), w.depth)
    ensures w.depth == old(w.depth) && !w.key && w.comma
    decreases f, 1
  {
    hide Lead, Rendered, Break;
    if f.Flat? {
      w.WriteMember(FieldOut(f));
    } else {
      ghost var v := FieldOut(f).value;
      w.Key(f.key);
      NoLead(w.st, w.depth, w.comma);
      if f.Kid? {
        AstNode(w, f.node);
      } else {
        AstList(w, f.list);
      }
      KeyThen(f.key, Colon(w.st), Rendered(w.st, v, w.depth));
    }
  }

  lemma NoLead(st: Style, depth: nat, comma: bool)
    ensures Lead(st, depth, comma, true) == []
  {
  }

  /** ast_list */
  method AstList(w: Writer, list: seq<Ast>)
    requires forall i | 0 <= i < |list| :: FieldsFit(list[i])
    modifies w
    ensures w.out == old(w.out) + old(w.Leads()) + Rendered(w.st, ListOut(list), w.depth)
    ensures w.depth == old(w.depth) && !w.key && w.comma == (w.depth > 0)
    decreases list, 2
  {
    hide Lead, Rendered, ItemsText, Break;
    w.Open('[');
    ghost var base := w.out;
    var i := 0;
    NoText(w.st, w.depth);
    assert list[..0] == [];
    while i < |list|
      invariant i <= |list| && w.out == base + ItemsText(w.st, Shown(list[..i], |list| == 1), w.depth)
      invariant w.depth == old(w.depth) + 1 && !w.key && w.comma == (Shown(list[..i], |list| == 1) != [])
    {
      ShownSnoc(list, |list| == 1, i);
      assert Shown(list[..i], |list| == 1) + [] == Shown(list[..i], |list| == 1);
      if !Placeholder(list[i]) || (i == 0 && |list| == 1) {
        ItemWritten(w.st, base, Shown(list[..i], |list| == 1), NodeOut(list[i]), w.depth);
        AstNode(w, list[i]);
      }
      i := i + 1;
    }
    assert list[..i] == list;
    w.Close(']');
    ListText(w.st, Shown(list, |list| == 1), w.depth);
  }

  /** What ast_tree writes for any tree reads back as the tree's value, in every style. */
  lemma TreeReadsBack(st: Style, list: seq<Ast>)
    requires forall i | 0 <= i < |list| :: FieldsFit(list[i])
    ensures var s := Rendered(st, ListOut(list), 0) + "\n";
            Json.Document(s) == Json.Got(Meaning(ListOut(list)), |s|)
  {
    ListFits(list, |list| == 1);
    ReadsBack(st, ListOut(list), true);
  }

  /** What is left out: string chunks of no length with none but the low four flags. */
  lemma PlaceholderIs(n: Ast)
    ensures Placeholder(n) <==> n.kind == "string" && n.len == 0 && n.flag <= 0x0f
  {
  }
}
