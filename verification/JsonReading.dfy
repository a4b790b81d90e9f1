/**
 How the printer reads the JSON tree: packages/adapter-pgsql/src/pgsql-deparser.ts:67-158 and 310-720 look at
 the first key of a node and then at the fields of its body by name. It finds the node that was encoded,
 also after the placeholders were renumbered.
 */
module JsonReading {
  import opened Common
  import opened Ast
  import opened JsonTree
  import opened JsonEncoding
  import R = Renumbering

  // --- reading -------------------------------------------------------------------------------------------

  /** The key of a node. */
  function Tag(v: Json): Option<string> {
    if v.Object? && v.fields != [] && v.fields[0].value.Object? then Some(v.fields[0].key) else None
  }

  lemma {:induction false} GetInside(fs: seq<Field>, key: string)
    requires Get(fs, key).Some?
    ensures exists i | 0 <= i < |fs| :: fs[i].value == Get(fs, key).value
  {
    if fs[0].key != key {
      GetInside(fs[1..], key);
      var i :| 0 <= i < |fs| - 1 && fs[1..][i].value == Get(fs, key).value;
      assert fs[i + 1] == fs[1..][i];
    }
  }

  /** A field of a node's body. */
  function At(v: Json, key: string): (r: Option<Json>)
    ensures r.Some? ==> r.value < v
  {
    if Tag(v).None? then None
    else
      var body := v.fields[0].value;
      var r := Get(body.fields, key);
      assert r.Some? ==> r.value < body by { if r.Some? { GetInside(body.fields, key); } }
      r
  }

  function TextAt(v: Json, key: string): Option<string> {
    match At(v, key) case Some(Scalar(TextVal(s))) => Some(s) case _ => None
  }

  function ListAt(v: Json, key: string): (r: Option<seq<Json>>)
    ensures r.Some? ==> List(r.value) < v
  {
    match At(v, key) case Some(List(items)) => Some(items) case _ => None
  }

  function ReadName(v: Json): Option<string> { if Tag(v) == Some("String") then TextAt(v, "sval") else None }

  function ReadNames(vs: seq<Json>): Option<seq<string>> {
    if vs == [] then Some([])
    else
      match (ReadName(vs[0]), ReadNames(vs[1..]))
      case (Some(name), Some(names)) => Some([name] + names)
      case _ => None
  }

  /** A value stands under its key, or under that key once more. */
  function Typed(v: Json, key: string): Option<Datum> {
    match At(v, key)
    case Some(Scalar(d)) => Some(d)
    case Some(Object(fs)) => (match Get(fs, key) case Some(Scalar(d)) => Some(d) case _ => None)
    case _ => None
  }

  function ReadConst(v: Json): Option<Node> {
    if At(v, "isnull") == Some(Scalar(BoolVal(true))) then Some(NullConst)
    else
      match (Typed(v, "ival"), Typed(v, "boolval"), Typed(v, "sval"))
      case (Some(NumVal(n)), _, _) => if n >= 0 then Some(IntConst(n)) else None
      case (None, Some(BoolVal(b)), _) => Some(BoolConst(b))
      case (None, None, Some(TextVal(s))) => Some(StringConst(s))
      case _ => None
  }

  /** FROM table AS alias */
  function ReadRange(v: Json): Option<(string, string)> {
    if Tag(v) != Some("RangeVar") then None
    else
      match (TextAt(v, "relname"), At(v, "alias"))
      case (Some(table), Some(Object(fs))) =>
        (match Get(fs, "aliasname") case Some(Scalar(TextVal(alias))) => Some((table, alias)) case _ => None)
      case _ => None
  }

  predicate IsOne(v: Json) {
    Tag(v) == Some("ResTarget") && At(v, "val").Some? && ReadConst(At(v, "val").value) == Some(IntConst(1))
  }

  function Read(v: Json): Option<Node>
    decreases v, 1
  {
    match Tag(v)
    case None => None
    case Some(tag) =>
      if tag == "ColumnRef" then
        match ListAt(v, "fields")
        case None => None
        case Some(items) => (match ReadNames(items) case None => None case Some(names) => Some(Column(names)))
      else if tag == "ParamRef" then
        match At(v, "number")
        case Some(Scalar(NumVal(n))) => if n >= 0 then Some(Param(n)) else None
        case _ => None
      else if tag == "A_Const" then ReadConst(v)
      else if tag == "A_Expr" then ReadExpr(v)
      else if tag == "BoolExpr" then
        match (TextAt(v, "boolop"), ListAt(v, "args"))
        case (Some(op), Some(items)) =>
          (match ReadAll(items)
           case None => None
           case Some(args) =>
             Some(BoolExpr(if op == "NOT_EXPR" then NotExpr else if op == "AND_EXPR" then AndExpr else OrExpr, args)))
        case _ => None
      else if tag == "NullTest" then
        match At(v, "arg")
        case None => None
        case Some(arg) =>
          (match Read(arg)
           case None => None
           case Some(x) => Some(NullTest(x, TextAt(v, "nulltesttype") == Some("IS_NULL"))))
      else if tag == "SubLink" && TextAt(v, "subLinkType") == Some("EXISTS_SUBLINK") then
        match At(v, "subselect") case None => None case Some(select) => ReadExists(select)
      else None
  }

  /** SELECT 1 FROM table AS alias WHERE condition */
  function ReadExists(v: Json): Option<Node>
    decreases v, 0
  {
    if Tag(v) != Some("SelectStmt") then None
    else
      match (ListAt(v, "targetList"), ListAt(v, "fromClause"), At(v, "whereClause"))
      case (Some(targets), Some(ranges), Some(condition)) =>
        if |targets| != 1 || !IsOne(targets[0]) || |ranges| != 1 then None
        else
          (match (ReadRange(ranges[0]), Read(condition))
           case (Some((table, alias)), Some(node)) => Some(Exists(table, alias, node))
           case _ => None)
      case _ => None
  }

  function ReadExpr(v: Json): Option<Node>
    decreases v, 0
  {
    match (TextAt(v, "kind"), ListAt(v, "name"), At(v, "lexpr"), At(v, "rexpr"))
    case (Some(kind), Some(names), Some(l), Some(r)) =>
      if names == [] then None
      else if Tag(r) == Some("List") then
        (match (ReadName(names[0]), Read(l), ListAt(r, "items"))
         case (Some(op), Some(left), Some(items)) =>
           (match ReadAll(items) case None => None case Some(nodes) => OverList(kind, op, left, nodes))
         case _ => None)
      else
        (match (ReadName(names[0]), Read(l), Read(r))
         case (Some(op), Some(left), Some(right)) => OfTwo(kind, op, left, right)
         case _ => None)
    case _ => None
  }

  function OverList(kind: string, op: string, left: Node, items: seq<Node>): Option<Node> {
    if kind == "AEXPR_IN" then Some(InList(op == "<>", left, items))
    else if (kind == "AEXPR_BETWEEN" || kind == "AEXPR_NOT_BETWEEN") && |items| == 2
    then Some(Between(kind == "AEXPR_NOT_BETWEEN", left, items[0], items[1]))
    else None
  }

  function OfTwo(kind: string, op: string, left: Node, right: Node): Option<Node> {
    if kind == "AEXPR_OP" then Some(Binary(op, left, right))
    else if kind == "AEXPR_OP_ANY" then Some(Quantified(op, false, left, right))
    else if kind == "AEXPR_OP_ALL" then Some(Quantified(op, true, left, right))
    else if kind == "AEXPR_DISTINCT" then Some(DistinctFrom(left, right))
    else None
  }

  function ReadAll(vs: seq<Json>): Option<seq<Node>>
    decreases vs, 0
  {
    if vs == [] then Some([])
    else
      match (Read(vs[0]), ReadAll(vs[1..]))
      case (Some(node), Some(nodes)) => Some([node] + nodes)
      case _ => None
  }

  // --- it reads what was encoded ---------------------------------------------------------------------------

  lemma GetOne(a: Field)
    ensures Get([a], a.key) == Some(a.value)
  {
  }

  lemma GetTwo(a: Field, b: Field)
    requires a.key != b.key
    ensures Get([a, b], a.key) == Some(a.value) && Get([a, b], b.key) == Some(b.value)
  {
    assert [a, b][1..] == [b];
  }

  lemma GetThree(a: Field, b: Field, c: Field)
    requires a.key != b.key && a.key != c.key && b.key != c.key
    ensures var fs := [a, b, c];
      Get(fs, a.key) == Some(a.value) && Get(fs, b.key) == Some(b.value) && Get(fs, c.key) == Some(c.value)
  {
    assert [a, b, c][1..] == [b, c];
    GetTwo(b, c);
  }

  lemma GetFour(a: Field, b: Field, c: Field, d: Field)
    requires a.key != b.key && a.key != c.key && a.key != d.key && b.key != c.key && b.key != d.key && c.key != d.key
    ensures var fs := [a, b, c, d];
      && Get(fs, a.key) == Some(a.value) && Get(fs, b.key) == Some(b.value)
      && Get(fs, c.key) == Some(c.value) && Get(fs, d.key) == Some(d.value)
  {
    assert [a, b, c, d][1..] == [b, c, d];
    GetThree(b, c, d);
  }

  lemma AtTagged(tag: string, body: seq<Field>, key: string)
    ensures Tag(Tagged(tag, body)) == Some(tag) && At(Tagged(tag, body), key) == Get(body, key)
  {
  }

  lemma {:induction false} ReadStrings(names: seq<string>)
    ensures ReadNames(Strings(names)) == Some(names)
  {
    if names != [] {
      GetOne(Field("sval", Text(names[0])));
      AtTagged("String", [Field("sval", Text(names[0]))], "sval");
      assert ReadName(Strings(names)[0]) == Some(names[0]);
      ReadStrings(names[1..]);
      assert Strings(names)[1..] == Strings(names[1..]) && [names[0]] + names[1..] == names;
    }
  }

  lemma ConstReads(key: string, d: Datum, other: string)
    ensures Typed(Const(key, d), key) == Some(d)
    ensures other != key ==> At(Const(key, d), other) == None
  {
    var inner := Field(key, Scalar(d));
    GetOne(inner);
    GetOne(Field(key, Object([inner])));
    AtTagged("A_Const", [Field(key, Object([inner]))], key);
    AtTagged("A_Const", [Field(key, Object([inner]))], other);
    assert [Field(key, Object([inner]))][1..] == [];
  }

  lemma ReadsConst(n: Node)
    requires n.IntConst? || n.BoolConst? || n.StringConst?
    ensures ReadConst(Encode(n)) == Some(n)
  {
    assert |"ival"| != |"isnull"| && |"boolval"| != |"isnull"| && |"sval"| != |"isnull"|;
    assert |"ival"| != |"boolval"| && |"sval"| != |"boolval"| && "ival"[0] != "sval"[0];
    match n
    case IntConst(k) => ConstReads("ival", NumVal(k), "isnull");
    case BoolConst(b) =>
      ConstReads("boolval", BoolVal(b), "isnull");
      ConstReads("boolval", BoolVal(b), "ival");
    case StringConst(s) =>
      ConstReads("sval", TextVal(s), "isnull");
      ConstReads("sval", TextVal(s), "ival");
      ConstReads("sval", TextVal(s), "boolval");
  }

  lemma TagsDiffer()
    ensures var tags := ["ColumnRef", "ParamRef", "A_Const", "A_Expr", "BoolExpr", "NullTest", "SubLink", "List"];
      forall i, j | 0 <= i < j < |tags| :: tags[i] != tags[j]
  {
    assert |"ColumnRef"| == 9 && |"ParamRef"| == |"BoolExpr"| == |"NullTest"| == 8;
    assert |"A_Const"| == |"SubLink"| == 7 && |"A_Expr"| == 6 && |"List"| == 4;
    assert "ParamRef"[0] == 'P' && "BoolExpr"[0] == 'B' && "NullTest"[0] == 'N';
    assert "A_Const"[0] == 'A' && "SubLink"[0] == 'S';
  }

  lemma ReadsOperator(kind: string, op: string, l: Json, r: Json)
    ensures var v := Operator(kind, op, l, r);
      && Tag(v) == Some("A_Expr") && TextAt(v, "kind") == Some(kind)
      && ListAt(v, "name") == Some(Strings([op])) && ReadName(Strings([op])[0]) == Some(op)
      && At(v, "lexpr") == Some(l) && At(v, "rexpr") == Some(r)
  {
    var a, b := Field("kind", Text(kind)), Field("name", List(Strings([op])));
    var c, d := Field("lexpr", l), Field("rexpr", r);
    assert |"kind"| == |"name"| == 4 && |"lexpr"| == |"rexpr"| == 5;
    assert "kind"[0] != "name"[0] && "lexpr"[0] != "rexpr"[0];
    GetFour(a, b, c, d);
    ReadStrings([op]);
    AtTagged("A_Expr", [a, b, c, d], "kind");
    AtTagged("A_Expr", [a, b, c, d], "name");
    AtTagged("A_Expr", [a, b, c, d], "lexpr");
    AtTagged("A_Expr", [a, b, c, d], "rexpr");
  }

  lemma ReadsOfTwo(kind: string, op: string, l: Json, r: Json, left: Node, right: Node)
    requires Read(l) == Some(left) && Read(r) == Some(right) && Tag(r) != Some("List")
    ensures Read(Operator(kind, op, l, r)) == OfTwo(kind, op, left, right)
  {
    TagsDiffer();
    ReadsOperator(kind, op, l, r);
    assert Read(Operator(kind, op, l, r)) == ReadExpr(Operator(kind, op, l, r));
  }

  lemma ReadsOverList(kind: string, op: string, l: Json, items: seq<Json>, left: Node, nodes: seq<Node>)
    requires Read(l) == Some(left) && ReadAll(items) == Some(nodes)
    ensures Read(Operator(kind, op, l, Items(items))) == OverList(kind, op, left, nodes)
  {
    var r := Items(items);
    TagsDiffer();
    ReadsOperator(kind, op, l, r);
    GetOne(Field("items", List(items)));
    AtTagged("List", [Field("items", List(items))], "items");
    assert ListAt(r, "items") == Some(items);
    assert Read(Operator(kind, op, l, r)) == ReadExpr(Operator(kind, op, l, r));
  }

  lemma KindsOfTwo(op: string, l: Node, r: Node)
    ensures OfTwo("AEXPR_OP", op, l, r) == Some(Binary(op, l, r))
    ensures OfTwo("AEXPR_DISTINCT", op, l, r) == Some(DistinctFrom(l, r))
    ensures OfTwo("AEXPR_OP_ANY", op, l, r) == Some(Quantified(op, false, l, r))
    ensures OfTwo("AEXPR_OP_ALL", op, l, r) == Some(Quantified(op, true, l, r))
  {
    assert |"AEXPR_OP"| == 8 && |"AEXPR_OP_ANY"| == |"AEXPR_OP_ALL"| == 12 && |"AEXPR_DISTINCT"| == 14;
    assert "AEXPR_OP_ANY"[10] == 'N' && "AEXPR_OP_ALL"[10] == 'L';
  }

  lemma ReadsNullTest(v: Json, x: Node, isNull: bool)
    requires Read(v) == Some(x)
    ensures Read(Tagged("NullTest", [Field("arg", v),
                                     Field("nulltesttype", Text(if isNull then "IS_NULL" else "IS_NOT_NULL"))]))
            == Some(NullTest(x, isNull))
  {
    var kind := if isNull then "IS_NULL" else "IS_NOT_NULL";
    var a, b := Field("arg", v), Field("nulltesttype", Text(kind));
    assert |"arg"| != |"nulltesttype"| && |"IS_NULL"| != |"IS_NOT_NULL"|;
    TagsDiffer();
    GetTwo(a, b);
    AtTagged("NullTest", [a, b], "arg");
    AtTagged("NullTest", [a, b], "nulltesttype");
  }

  lemma OpTextsDiffer()
    ensures "OR_EXPR" != "AND_EXPR" && "OR_EXPR" != "NOT_EXPR" && "AND_EXPR" != "NOT_EXPR"
  {
    assert |"OR_EXPR"| == 7 && |"AND_EXPR"| == |"NOT_EXPR"| == 8 && "AND_EXPR"[0] != "NOT_EXPR"[0];
  }

  lemma ReadsBool(op: BoolOp, items: seq<Json>, args: seq<Node>)
    requires ReadAll(items) == Some(args)
    ensures Read(Tagged("BoolExpr", [Field("boolop", Text(BoolOpText(op))), Field("args", List(items))]))
            == Some(BoolExpr(op, args))
  {
    var a, b := Field("boolop", Text(BoolOpText(op))), Field("args", List(items));
    assert |"boolop"| != |"args"|;
    OpTextsDiffer();
    TagsDiffer();
    GetTwo(a, b);
    AtTagged("BoolExpr", [a, b], "boolop");
    AtTagged("BoolExpr", [a, b], "args");
  }

  lemma ReadsRange(table: string, alias: string)
    ensures ReadRange(RangeVar(table, alias)) == Some((table, alias))
  {
    var a, b := Field("relname", Text(table)), Field("inh", Scalar(BoolVal(true)));
    var c, d := Field("relpersistence", Text("p")), Field("alias", RangeAlias(alias));
    assert |"relname"| == 7 && |"inh"| == 3 && |"relpersistence"| == 14 && |"alias"| == 5;
    GetFour(a, b, c, d);
    GetOne(Field("aliasname", Text(alias)));
    AtTagged("RangeVar", [a, b, c, d], "relname");
    AtTagged("RangeVar", [a, b, c, d], "alias");
  }

  lemma ReadsOneTarget()
    ensures IsOne(OneTarget())
  {
    ReadsConst(IntConst(1));
    GetOne(Field("val", Const("ival", NumVal(1))));
    AtTagged("ResTarget", [Field("val", Const("ival", NumVal(1)))], "val");
  }

  lemma ReadsSelect(table: string, alias: string, c: Node)
    requires Read(Encode(c)) == Some(c)
    ensures ReadExists(SelectOne(table, alias, Encode(c))) == Some(Exists(table, alias, c))
  {
    var x, y := Field("targetList", List([OneTarget()])), Field("fromClause", List([RangeVar(table, alias)]));
    var z := Field("whereClause", Encode(c));
    assert |"targetList"| == |"fromClause"| == 10 && |"whereClause"| == 11 && "targetList"[0] != "fromClause"[0];
    GetThree(x, y, z);
    AtTagged("SelectStmt", [x, y, z], "targetList");
    AtTagged("SelectStmt", [x, y, z], "fromClause");
    AtTagged("SelectStmt", [x, y, z], "whereClause");
    ReadsOneTarget();
    ReadsRange(table, alias);
  }

  lemma ReadsSubLink(select: Json, n: Node)
    requires ReadExists(select) == Some(n)
    ensures Read(Tagged("SubLink", [Field("subLinkType", Text("EXISTS_SUBLINK")), Field("subselect", select)]))
            == Some(n)
  {
    var a, b := Field("subLinkType", Text("EXISTS_SUBLINK")), Field("subselect", select);
    assert |"subLinkType"| != |"subselect"|;
    TagsDiffer();
    GetTwo(a, b);
    AtTagged("SubLink", [a, b], "subLinkType");
    AtTagged("SubLink", [a, b], "subselect");
  }

  lemma NodesAreNoLists(n: Node)
    ensures Tag(Encode(n)).Some? && Tag(Encode(n)) != Some("List")
  {
    TagsDiffer();
    match n
    case Param(k) => assert Tag(Encode(n)) == Some("ParamRef");
    case _ =>
  }

  lemma ReadsLeaf(n: Node)
    requires n.Column? || n.Param? || n.NullConst?
    ensures Read(Encode(n)) == Some(n)
  {
    TagsDiffer();
    match n
    case Column(fields) =>
      ReadStrings(fields);
      GetOne(Field("fields", List(Strings(fields))));
      AtTagged("ColumnRef", [Field("fields", List(Strings(fields)))], "fields");
    case Param(k) =>
      GetOne(Field("number", Scalar(NumVal(k))));
      AtTagged("ParamRef", [Field("number", Scalar(NumVal(k)))], "number");
      assert Encode(n) == Tagged("ParamRef", [Field("number", Scalar(NumVal(k)))]);
    case NullConst =>
      GetOne(Field("isnull", Scalar(BoolVal(true))));
      AtTagged("A_Const", [Field("isnull", Scalar(BoolVal(true)))], "isnull");
  }

  lemma ReadsTyped(n: Node)
    requires n.IntConst? || n.BoolConst? || n.StringConst?
    ensures Read(Encode(n)) == Some(n)
  {
    TagsDiffer();
    ReadsConst(n);
    assert Tag(Encode(n)) == Some("A_Const");
  }

  lemma ReadsBinary(n: Node)
    requires n.Binary? || n.DistinctFrom? || n.Quantified?
    requires Read(Encode(n.left)) == Some(n.left) && Read(Encode(n.right)) == Some(n.right)
    ensures Read(Encode(n)) == Some(n)
  {
    var op, kind := if n.DistinctFrom? then "=" else n.op,
      if n.Binary? then "AEXPR_OP" else if n.DistinctFrom? then "AEXPR_DISTINCT"
      else if n.all then "AEXPR_OP_ALL" else "AEXPR_OP_ANY";
    NodesAreNoLists(n.right);
    KindsOfTwo(op, n.left, n.right);
    ReadsOfTwo(kind, op, Encode(n.left), Encode(n.right), n.left, n.right);
  }

  /** The printer finds in the JSON tree of a node that node. */
  lemma {:induction false} ReadsEncoded(n: Node)
    ensures Read(Encode(n)) == Some(n)
    decreases n, 1
  {
    match n
    case Binary(_, l, r) => ReadsEncoded(l); ReadsEncoded(r); ReadsBinary(n);
    case DistinctFrom(l, r) => ReadsEncoded(l); ReadsEncoded(r); ReadsBinary(n);
    case Quantified(_, _, l, r) => ReadsEncoded(l); ReadsEncoded(r); ReadsBinary(n);
    case Between(negated, x, low, high) =>
      ReadsEncoded(x);
      ReadsEncoded(low);
      ReadsEncoded(high);
      ReadsBetween(negated, Encode(x), Encode(low), Encode(high), x, low, high);
    case InList(negated, x, items) =>
      ReadsEncoded(x);
      ReadsAllEncoded(items);
      assert "<>"[0] != "="[0];
      ReadsOverList("AEXPR_IN", if negated then "<>" else "=", Encode(x), EncodeAll(items), x, items);
    case NullTest(x, isNull) => ReadsEncoded(x); ReadsNullTest(Encode(x), x, isNull);
    case BoolExpr(op, args) => ReadsAllEncoded(args); ReadsBool(op, EncodeAll(args), args);
    case Exists(table, alias, c) =>
      ReadsEncoded(c);
      ReadsSelect(table, alias, c);
      ReadsSubLink(SelectOne(table, alias, Encode(c)), n);
    case Column(_) => ReadsLeaf(n);
    case Param(_) => ReadsLeaf(n);
    case NullConst => ReadsLeaf(n);
    case _ => ReadsTyped(n);
  }

  lemma ReadsPair(a: Json, b: Json, x: Node, y: Node)
    requires Read(a) == Some(x) && Read(b) == Some(y)
    ensures ReadAll([a, b]) == Some([x, y])
  {
    assert [a, b][1..] == [b] && [b][1..] == [];
    assert ReadAll([b]) == Some([y]) by { assert [y] + [] == [y]; }
    assert [x] + [y] == [x, y];
  }

  lemma ReadsBetween(negated: bool, a: Json, b: Json, c: Json, x: Node, low: Node, high: Node)
    requires Read(a) == Some(x) && Read(b) == Some(low) && Read(c) == Some(high)
    ensures Read(Operator(if negated then "AEXPR_NOT_BETWEEN" else "AEXPR_BETWEEN", "BETWEEN", a, Items([b, c])))
            == Some(Between(negated, x, low, high))
  {
    ReadsPair(b, c, low, high);
    ReadsOverList(if negated then "AEXPR_NOT_BETWEEN" else "AEXPR_BETWEEN", "BETWEEN", a, [b, c], x, [low, high]);
    ReadsAsBetween(negated, x, low, high);
  }

  lemma ReadsAsBetween(negated: bool, x: Node, low: Node, high: Node)
    ensures OverList(if negated then "AEXPR_NOT_BETWEEN" else "AEXPR_BETWEEN", "BETWEEN", x, [low, high])
            == Some(Between(negated, x, low, high))
  {
    assert |"AEXPR_IN"| == 8 && |"AEXPR_BETWEEN"| == 13 && |"AEXPR_NOT_BETWEEN"| == 17;
  }

  lemma {:induction false} ReadsAllEncoded(ns: seq<Node>)
    ensures ReadAll(EncodeAll(ns)) == Some(ns)
    decreases ns, 0
  {
    if ns != [] {
      ReadsEncoded(ns[0]);
      ReadsAllEncoded(ns[1..]);
      assert EncodeAll(ns)[1..] == EncodeAll(ns[1..]) && [ns[0]] + ns[1..] == ns;
    }
  }

  /** And after the kind-blind renumbering it finds the renumbered node. */
  lemma ReadsShifted(n: Node, k: nat)
    ensures Numbered(Encode(n)) && Read(RenumberParamRefsInAst(Encode(n), k)) == Some(R.Renumber(n, k))
  {
    EncodeWalks(n, k);
    ReadsEncoded(R.Renumber(n, k));
    if k == 0 { ReadsEncoded(n); R.RenumberByZero(n); }
  }
}
