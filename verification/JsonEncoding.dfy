/** Typed nodes as JSON: the kind-blind walk renumbers them as the typed function does. */
module JsonEncoding {
  import opened Common
  import opened Ast
  import opened JsonTree
  import opened ParameterStates
  import R = Renumbering

  function Text(s: string): Json { Scalar(TextVal(s)) }

  function Tagged(tag: string, body: seq<Field>): Json { Object([Field(tag, Object(body))]) }

  function Strings(names: seq<string>): (r: seq<Json>)
    ensures |r| == |names|
  {
    if names == [] then [] else [Tagged("String", [Field("sval", Text(names[0]))])] + Strings(names[1..])
  }

  function Operator(kind: string, op: string, l: Json, r: Json): Json {
    Tagged("A_Expr", [Field("kind", Text(kind)), Field("name", List(Strings([op]))), Field("lexpr", l),
        Field("rexpr", r)])
  }

  function Items(vs: seq<Json>): Json { Tagged("List", [Field("items", List(vs))]) }

  function BoolOpText(op: BoolOp): string {
    match op case AndExpr => "AND_EXPR" case OrExpr => "OR_EXPR" case NotExpr => "NOT_EXPR"
  }

  function RangeVar(table: string, alias: string): Json {
    Tagged("RangeVar", [Field("relname", Text(table)), Field("inh", Scalar(BoolVal(true))),
                        Field("relpersistence", Text("p")), Field("alias", RangeAlias(alias))])
  }

  function RangeAlias(alias: string): Json { Object([Field("aliasname", Text(alias))]) }

  /** A constant stands under the key of its type twice. */
  function Const(key: string, d: Datum): Json {
    Tagged("A_Const", [Field(key, Object([Field(key, Scalar(d))]))])
  }

  function OneTarget(): Json { Tagged("ResTarget", [Field("val", Const("ival", NumVal(1)))]) }

  /** SELECT 1 FROM table AS alias WHERE condition */
  function SelectOne(table: string, alias: string, condition: Json): Json {
    Tagged("SelectStmt", [
      Field("targetList", List([OneTarget()])),
      Field("fromClause", List([RangeVar(table, alias)])),
      Field("whereClause", condition)])
  }

  function Encode(n: Node): Json
    decreases n, 1
  {
    match n
    case Column(fields) => Tagged("ColumnRef", [Field("fields", List(Strings(fields)))])
    case Param(k) => Wrapper([Field("number", Scalar(NumVal(k)))])
    case NullConst => Tagged("A_Const", [Field("isnull", Scalar(BoolVal(true)))])
    case BoolConst(b) => Const("boolval", BoolVal(b))
    case IntConst(k) => Const("ival", NumVal(k))
    case StringConst(s) => Const("sval", TextVal(s))
    case Binary(op, l, r) => Operator("AEXPR_OP", op, Encode(l), Encode(r))
    case DistinctFrom(l, r) => Operator("AEXPR_DISTINCT", "=", Encode(l), Encode(r))
    case Between(negated, x, low, high) =>
      Operator(if negated then "AEXPR_NOT_BETWEEN" else "AEXPR_BETWEEN", "BETWEEN", Encode(x),
               Items([Encode(low), Encode(high)]))
    case InList(negated, x, items) => Operator("AEXPR_IN", if negated then "<>" else "=", Encode(x),
        Items(EncodeAll(items)))
    case Quantified(op, all, l, r) => Operator(if all then "AEXPR_OP_ALL" else "AEXPR_OP_ANY", op, Encode(l), Encode(r))
    case NullTest(x, isNull) =>
      Tagged("NullTest", [Field("arg", Encode(x)),
          Field("nulltesttype", Text(if isNull then "IS_NULL" else "IS_NOT_NULL"))])
    case BoolExpr(op, args) =>
      Tagged("BoolExpr", [Field("boolop", Text(BoolOpText(op))), Field("args", List(EncodeAll(args)))])
    case Exists(table, alias, condition) =>
      Tagged("SubLink", [Field("subLinkType", Text("EXISTS_SUBLINK")),
                         Field("subselect", SelectOne(table, alias, Encode(condition)))])
  }

  function EncodeAll(ns: seq<Node>): (r: seq<Json>)
    ensures |r| == |ns|
    decreases ns, 0
  {
    if ns == [] then [] else [Encode(ns[0])] + EncodeAll(ns[1..])
  }

  // --- walking what Encode builds ------------------------------------------------------------------

  /** v holds these numbers, wraps them properly, and becomes r when shifted by k. */
  ghost predicate Walks(v: Json, ns: seq<nat>, k: nat, r: Json) {
    Numbered(v) && SingleKeys(v) && NumbersIn(v) == ns && RenumberNode(v, k) == r
  }

  ghost predicate FieldsWalk(fs: seq<Field>, ns: seq<nat>, k: nat, r: seq<Field>) {
    FieldsNumbered(fs) && FieldsSingleKeys(fs) && NumbersInFields(fs) == ns && RenumberFields(fs, k) == r
  }

  ghost predicate ListWalks(vs: seq<Json>, ns: seq<nat>, k: nat, r: seq<Json>) {
    AllNumbered(vs) && AllSingleKeys(vs) && NumbersInList(vs) == ns && RenumberList(vs, k) == r
  }

  lemma {:induction false} NoKey(fs: seq<Field>)
    requires forall f | f in fs :: f.key != "ParamRef"
    ensures Get(fs, "ParamRef") == None
  {
    if fs != [] { NoKey(fs[1..]); }
  }

  lemma WalkTagged(tag: string, body: seq<Field>, ns: seq<nat>, k: nat, r: seq<Field>)
    requires tag != "ParamRef" && Get(body, "ParamRef") == None && FieldsWalk(body, ns, k, r)
    ensures Walks(Tagged(tag, body), ns, k, Tagged(tag, r))
  {
    var inner := Object(body);
    var outer := [Field(tag, inner)];
    assert outer[1..] == [];
    assert Walks(inner, ns, k, Object(r));
    assert Get(outer, "ParamRef") == Get(outer[1..], "ParamRef") == None;
    assert RenumberFields(outer, k) == [Field(tag, Object(r))] + RenumberFields([], k);
    assert NumbersInFields(outer) == ns + [] == ns;
    assert [Field(tag, Object(r))] + [] == [Field(tag, Object(r))];
    assert ParamBody(Object(outer)) == None;
    assert FieldsNumbered(outer) && FieldsSingleKeys(outer);
  }

  lemma WalkField(key: string, v: Json, ns: seq<nat>, r: Json, fs: seq<Field>, ms: seq<nat>, rs: seq<Field>, k: nat)
    requires Walks(v, ns, k, r) && FieldsWalk(fs, ms, k, rs)
    ensures FieldsWalk([Field(key, v)] + fs, ns + ms, k, [Field(key, r)] + rs)
  {
    assert ([Field(key, v)] + fs)[1..] == fs;
  }

  lemma WalkOne(key: string, v: Json, ns: seq<nat>, k: nat, r: Json)
    requires Walks(v, ns, k, r)
    ensures FieldsWalk([Field(key, v)], ns, k, [Field(key, r)])
  {
    WalkField(key, v, ns, r, [], [], [], k);
    assert [Field(key, v)] + [] == [Field(key, v)] && [Field(key, r)] + [] == [Field(key, r)] && ns + [] == ns;
  }

  lemma WalkTwo(key: string, v: Json, ns: seq<nat>, r: Json, key2: string, v2: Json, ms: seq<nat>, r2: Json, k: nat)
    requires Walks(v, ns, k, r) && Walks(v2, ms, k, r2)
    ensures FieldsWalk([Field(key, v), Field(key2, v2)], ns + ms, k, [Field(key, r), Field(key2, r2)])
  {
    WalkOne(key2, v2, ms, k, r2);
    WalkField(key, v, ns, r, [Field(key2, v2)], ms, [Field(key2, r2)], k);
    assert [Field(key, v)] + [Field(key2, v2)] == [Field(key, v), Field(key2, v2)];
    assert [Field(key, r)] + [Field(key2, r2)] == [Field(key, r), Field(key2, r2)];
  }

  lemma WalkItem(v: Json, ns: seq<nat>, r: Json, vs: seq<Json>, ms: seq<nat>, rs: seq<Json>, k: nat)
    requires Walks(v, ns, k, r) && ListWalks(vs, ms, k, rs)
    ensures ListWalks([v] + vs, ns + ms, k, [r] + rs)
  {
    assert ([v] + vs)[1..] == vs;
  }

  lemma WalkText(t: string, k: nat)
    ensures Walks(Text(t), [], k, Text(t))
  {
  }

  lemma {:induction false} WalkStrings(names: seq<string>, k: nat)
    ensures ListWalks(Strings(names), [], k, Strings(names))
  {
    if names != [] {
      WalkText(names[0], k);
      WalkOne("sval", Text(names[0]), [], k, Text(names[0]));
      WalkTagged("String", [Field("sval", Text(names[0]))], [], k, [Field("sval", Text(names[0]))]);
      WalkStrings(names[1..], k);
      var head := Tagged("String", [Field("sval", Text(names[0]))]);
      WalkItem(head, [], head, Strings(names[1..]), [], Strings(names[1..]), k);
    }
  }

  lemma WalkOperator(kind: string, op: string, l: Json, ns: seq<nat>, l2: Json, r: Json, ms: seq<nat>, r2: Json, k: nat)
    requires Walks(l, ns, k, l2) && Walks(r, ms, k, r2)
    ensures Walks(Operator(kind, op, l, r), ns + ms, k, Operator(kind, op, l2, r2))
  {
    var name := List(Strings([op]));
    var tail, tail2 := [Field("lexpr", l), Field("rexpr", r)], [Field("lexpr", l2), Field("rexpr", r2)];
    WalkText(kind, k);
    WalkStrings([op], k);
    WalkTwo("lexpr", l, ns, l2, "rexpr", r, ms, r2, k);
    WalkField("name", name, [], name, tail, ns + ms, tail2, k);
    WalkField("kind", Text(kind), [], Text(kind), [Field("name", name)] + tail, [] + (ns + ms),
        [Field("name", name)] + tail2, k);
    OperatorBody(kind, op, l, r);
    OperatorBody(kind, op, l2, r2);
    assert [] + ([] + (ns + ms)) == ns + ms;
    WalkTagged("A_Expr", [Field("kind", Text(kind))] + ([Field("name", name)] + tail), ns + ms, k,
               [Field("kind", Text(kind))] + ([Field("name", name)] + tail2));
  }

  lemma OperatorBody(kind: string, op: string, l: Json, r: Json)
    ensures var body := [Field("kind", Text(kind))] +
        ([Field("name", List(Strings([op])))] + [Field("lexpr", l), Field("rexpr", r)]);
      Operator(kind, op, l, r) == Tagged("A_Expr", body) && Get(body, "ParamRef") == None
  {
    var tail := [Field("lexpr", l), Field("rexpr", r)];
    var body := [Field("kind", Text(kind))] + ([Field("name", List(Strings([op])))] + tail);
    assert body == [Field("kind", Text(kind)), Field("name", List(Strings([op]))), Field("lexpr", l),
        Field("rexpr", r)];
    NoKey(body);
  }

  lemma WalkItems(vs: seq<Json>, ns: seq<nat>, k: nat, r: seq<Json>)
    requires ListWalks(vs, ns, k, r)
    ensures Walks(Items(vs), ns, k, Items(r))
  {
    WalkOne("items", List(vs), ns, k, List(r));
    WalkTagged("List", [Field("items", List(vs))], ns, k, [Field("items", List(r))]);
  }

  lemma WalkConst(tag: string, key: string, d: Datum, k: nat)
    requires tag != "ParamRef" && key != "ParamRef"
    ensures Walks(Tagged(tag, [Field(key, Scalar(d))]), [], k, Tagged(tag, [Field(key, Scalar(d))]))
  {
    WalkOne(key, Scalar(d), [], k, Scalar(d));
    WalkTagged(tag, [Field(key, Scalar(d))], [], k, [Field(key, Scalar(d))]);
  }

  lemma WalkParam(n: nat, k: nat)
    ensures Walks(Encode(Param(n)), [n], k, Encode(Param(n + k)))
  {
    var body := [Field("number", Scalar(NumVal(n)))];
    assert ParamBody(Wrapper(body)) == Some(body) && NumberOf(Wrapper(body)) == Some(n);
    assert Put(body, "number", Scalar(NumVal(n + k))) == [Field("number", Scalar(NumVal(n + k)))];
  }

  lemma WalkInner(key: string, d: Datum, k: nat)
    requires key != "ParamRef"
    ensures Walks(Object([Field(key, Scalar(d))]), [], k, Object([Field(key, Scalar(d))]))
  {
    var fs := [Field(key, Scalar(d))];
    WalkOne(key, Scalar(d), [], k, Scalar(d));
    NoKey(fs);
  }

  lemma WalkTyped(key: string, d: Datum, k: nat)
    requires key != "ParamRef"
    ensures Walks(Const(key, d), [], k, Const(key, d))
  {
    var inner := Object([Field(key, Scalar(d))]);
    WalkInner(key, d, k);
    WalkOne(key, inner, [], k, inner);
    NoKey([Field(key, inner)]);
    WalkTagged("A_Const", [Field(key, inner)], [], k, [Field(key, inner)]);
  }

  lemma WalkRangeVar(table: string, alias: string, k: nat)
    ensures Walks(RangeVar(table, alias), [], k, RangeVar(table, alias))
  {
    var inh, range := Scalar(BoolVal(true)), RangeAlias(alias);
    var two := [Field("relpersistence", Text("p")), Field("alias", range)];
    WalkText("p", k);
    WalkInner("aliasname", TextVal(alias), k);
    WalkTwo("relpersistence", Text("p"), [], Text("p"), "alias", range, [], range, k);
    WalkText(table, k);
    WalkField("inh", inh, [], inh, two, [], two, k);
    WalkRangeBody(Text(table), inh, two, k);
  }

  lemma WalkRangeBody(table: Json, inh: Json, two: seq<Field>, k: nat)
    requires |two| == 2 && two[0].key != "ParamRef" && two[1].key != "ParamRef"
    requires Walks(table, [], k, table) && FieldsWalk([Field("inh", inh)] + two, [], k, [Field("inh", inh)] + two)
    ensures Walks(Tagged("RangeVar", [Field("relname", table), Field("inh", inh), two[0], two[1]]), [], k,
                  Tagged("RangeVar", [Field("relname", table), Field("inh", inh), two[0], two[1]]))
  {
    var three := [Field("inh", inh)] + two;
    var four := [Field("relname", table)] + three;
    WalkField("relname", table, [], table, three, [], three, k);
    NoKey(four);
    assert "RangeVar"[0] != "ParamRef"[0];
    WalkTagged("RangeVar", four, [], k, four);
    assert four == [Field("relname", table), Field("inh", inh), two[0], two[1]];
  }

  lemma WalkTarget(k: nat)
    ensures Walks(OneTarget(), [], k, OneTarget())
  {
    var one := Const("ival", NumVal(1));
    WalkTyped("ival", NumVal(1), k);
    WalkOne("val", one, [], k, one);
    WalkTagged("ResTarget", [Field("val", one)], [], k, [Field("val", one)]);
  }

  lemma WalkSelect(table: string, alias: string, c: Json, ns: seq<nat>, c2: Json, k: nat)
    requires Walks(c, ns, k, c2)
    ensures Walks(SelectOne(table, alias, c), ns, k, SelectOne(table, alias, c2))
  {
    WalkTarget(k);
    WalkSingleton(OneTarget(), k);
    WalkRangeVar(table, alias, k);
    WalkSingleton(RangeVar(table, alias), k);
    WalkSelectBody(List([OneTarget()]), List([RangeVar(table, alias)]), c, ns, c2, k);
  }

  lemma WalkSelectBody(targets: Json, ranges: Json, c: Json, ns: seq<nat>, c2: Json, k: nat)
    requires Walks(targets, [], k, targets) && Walks(ranges, [], k, ranges) && Walks(c, ns, k, c2)
    ensures Walks(Tagged("SelectStmt", [Field("targetList", targets), Field("fromClause", ranges),
                                        Field("whereClause", c)]), ns, k,
                  Tagged("SelectStmt", [Field("targetList", targets), Field("fromClause", ranges),
                                        Field("whereClause", c2)]))
  {
    var tail, tail2 := [Field("fromClause", ranges), Field("whereClause", c)],
                       [Field("fromClause", ranges), Field("whereClause", c2)];
    WalkTwo("fromClause", ranges, [], ranges, "whereClause", c, ns, c2, k);
    WalkField("targetList", targets, [], targets, tail, [] + ns, tail2, k);
    var body := [Field("targetList", targets)] + tail;
    NoKey(body);
    assert [] + ([] + ns) == ns;
    WalkTagged("SelectStmt", body, ns, k, [Field("targetList", targets)] + tail2);
    assert body == [Field("targetList", targets), Field("fromClause", ranges), Field("whereClause", c)];
    assert [Field("targetList", targets)] + tail2
        == [Field("targetList", targets), Field("fromClause", ranges), Field("whereClause", c2)];
  }

  lemma WalkSingleton(v: Json, k: nat)
    requires Walks(v, [], k, v)
    ensures Walks(List([v]), [], k, List([v]))
  {
    WalkItem(v, [], v, [], [], [], k);
    assert [v] + [] == [v];
  }

  // --- every kind of node ----------------------------------------------------------------------------

  lemma WalkPair(tag: string, key: string, v: Json, ns: seq<nat>, r: Json, key2: string, v2: Json, ms: seq<nat>,
      r2: Json, k: nat)
    requires tag != "ParamRef" && key != "ParamRef" && key2 != "ParamRef"
    requires Walks(v, ns, k, r) && Walks(v2, ms, k, r2)
    ensures Walks(Tagged(tag, [Field(key, v), Field(key2, v2)]), ns + ms, k,
        Tagged(tag, [Field(key, r), Field(key2, r2)]))
  {
    WalkTwo(key, v, ns, r, key2, v2, ms, r2, k);
    NoKey([Field(key, v), Field(key2, v2)]);
    WalkTagged(tag, [Field(key, v), Field(key2, v2)], ns + ms, k, [Field(key, r), Field(key2, r2)]);
  }

  lemma WalkBetween(kind: string, x: Json, xs: seq<nat>, x2: Json, low: Json, ls: seq<nat>, low2: Json,
                    high: Json, hs: seq<nat>, high2: Json, k: nat)
    requires Walks(x, xs, k, x2) && Walks(low, ls, k, low2) && Walks(high, hs, k, high2)
    ensures Walks(Operator(kind, "BETWEEN", x, Items([low, high])), xs + ls + hs, k,
                  Operator(kind, "BETWEEN", x2, Items([low2, high2])))
  {
    WalkItem(high, hs, high2, [], [], [], k);
    assert [high] + [] == [high] && [high2] + [] == [high2] && hs + [] == hs;
    WalkItem(low, ls, low2, [high], hs, [high2], k);
    assert [low] + [high] == [low, high] && [low2] + [high2] == [low2, high2];
    WalkItems([low, high], ls + hs, k, [low2, high2]);
    WalkOperator(kind, "BETWEEN", x, xs, x2, Items([low, high]), ls + hs, Items([low2, high2]), k);
    Associative(xs, ls, hs);
  }

  lemma EncodeBetween(n: Node, k: nat)
    requires n.Between?
    requires Walks(Encode(n.arg), Numbers(n.arg), k, Encode(R.Renumber(n.arg, k)))
    requires Walks(Encode(n.low), Numbers(n.low), k, Encode(R.Renumber(n.low, k)))
    requires Walks(Encode(n.high), Numbers(n.high), k, Encode(R.Renumber(n.high, k)))
    ensures Walks(Encode(n), Numbers(n), k, Encode(R.Renumber(n, k)))
  {
    WalkBetween(if n.negated then "AEXPR_NOT_BETWEEN" else "AEXPR_BETWEEN",
                Encode(n.arg), Numbers(n.arg), Encode(R.Renumber(n.arg, k)),
                Encode(n.low), Numbers(n.low), Encode(R.Renumber(n.low, k)),
                Encode(n.high), Numbers(n.high), Encode(R.Renumber(n.high, k)), k);
  }

  lemma EncodeInList(n: Node, k: nat)
    requires n.InList?
    requires Walks(Encode(n.arg), Numbers(n.arg), k, Encode(R.Renumber(n.arg, k)))
    requires ListWalks(EncodeAll(n.items), NumbersOfAll(n.items), k, EncodeAll(R.RenumberAll(n.items, k)))
    ensures Walks(Encode(n), Numbers(n), k, Encode(R.Renumber(n, k)))
  {
    var moved := EncodeAll(R.RenumberAll(n.items, k));
    WalkItems(EncodeAll(n.items), NumbersOfAll(n.items), k, moved);
    WalkOperator("AEXPR_IN", if n.negated then "<>" else "=", Encode(n.arg), Numbers(n.arg),
                 Encode(R.Renumber(n.arg, k)), Items(EncodeAll(n.items)), NumbersOfAll(n.items), Items(moved), k);
  }

  lemma EncodeQuantified(n: Node, k: nat)
    requires n.Quantified?
    requires Walks(Encode(n.left), Numbers(n.left), k, Encode(R.Renumber(n.left, k)))
    requires Walks(Encode(n.right), Numbers(n.right), k, Encode(R.Renumber(n.right, k)))
    ensures Walks(Encode(n), Numbers(n), k, Encode(R.Renumber(n, k)))
  {
    WalkOperator(if n.all then "AEXPR_OP_ALL" else "AEXPR_OP_ANY", n.op, Encode(n.left), Numbers(n.left),
                 Encode(R.Renumber(n.left, k)), Encode(n.right), Numbers(n.right), Encode(R.Renumber(n.right, k)), k);
  }

  lemma WalkColumn(fields: seq<string>, k: nat)
    ensures Walks(Encode(Column(fields)), [], k, Encode(Column(fields)))
  {
    var body := [Field("fields", List(Strings(fields)))];
    WalkStrings(fields, k);
    WalkOne("fields", List(Strings(fields)), [], k, List(Strings(fields)));
    WalkTagged("ColumnRef", body, [], k, body);
  }

  lemma WalkNullTest(x: Node, isNull: bool, k: nat)
    requires Walks(Encode(x), Numbers(x), k, Encode(R.Renumber(x, k)))
    ensures Walks(Encode(NullTest(x, isNull)), Numbers(x), k, Encode(NullTest(R.Renumber(x, k), isNull)))
  {
    WalkNullTestOf(Encode(x), Numbers(x), Encode(R.Renumber(x, k)), if isNull then "IS_NULL" else "IS_NOT_NULL", k);
  }

  lemma WalkNullTestOf(v: Json, ns: seq<nat>, r: Json, kind: string, k: nat)
    requires Walks(v, ns, k, r)
    ensures Walks(Tagged("NullTest", [Field("arg", v), Field("nulltesttype", Text(kind))]), ns, k,
                  Tagged("NullTest", [Field("arg", r), Field("nulltesttype", Text(kind))]))
  {
    WalkText(kind, k);
    assert "NullTest"[0] != "ParamRef"[0];
    WalkPair("NullTest", "arg", v, ns, r, "nulltesttype", Text(kind), [], Text(kind), k);
    assert ns + [] == ns;
  }

  lemma WalkBool(op: BoolOp, args: seq<Node>, k: nat)
    requires ListWalks(EncodeAll(args), NumbersOfAll(args), k, EncodeAll(R.RenumberAll(args, k)))
    ensures Walks(Encode(BoolExpr(op, args)), NumbersOfAll(args), k, Encode(BoolExpr(op, R.RenumberAll(args, k))))
  {
    var kind := Text(BoolOpText(op));
    WalkText(BoolOpText(op), k);
    assert "BoolExpr"[0] != "ParamRef"[0];
    WalkPair("BoolExpr", "boolop", kind, [], kind,
             "args", List(EncodeAll(args)), NumbersOfAll(args), List(EncodeAll(R.RenumberAll(args, k))), k);
    assert [] + NumbersOfAll(args) == NumbersOfAll(args);
  }

  lemma WalkSubLink(table: string, alias: string, c: Node, k: nat)
    requires Walks(SelectOne(table, alias, Encode(c)), Numbers(c), k, SelectOne(table, alias, Encode(R.Renumber(c, k))))
    ensures Walks(Encode(Exists(table, alias, c)), Numbers(c), k, Encode(Exists(table, alias, R.Renumber(c, k))))
  {
    var kind := Text("EXISTS_SUBLINK");
    WalkText("EXISTS_SUBLINK", k);
    WalkPair("SubLink", "subLinkType", kind, [], kind,
             "subselect", SelectOne(table, alias, Encode(c)), Numbers(c),
                 SelectOne(table, alias, Encode(R.Renumber(c, k))), k);
    assert [] + Numbers(c) == Numbers(c);
  }

  /**
   The kind-blind walk finds exactly the placeholders of the typed node and shifts it to the
   typed renumbering.
   */
  lemma {:induction false} EncodeWalks(n: Node, k: nat)
    ensures Walks(Encode(n), Numbers(n), k, Encode(R.Renumber(n, k)))
    decreases n, 1
  {
    match n
    case Column(fields) => WalkColumn(fields, k);
    case Param(m) => WalkParam(m, k);
    case NullConst => WalkConst("A_Const", "isnull", BoolVal(true), k);
    case BoolConst(b) => WalkTyped("boolval", BoolVal(b), k);
    case IntConst(m) => WalkTyped("ival", NumVal(m), k);
    case StringConst(s) => WalkTyped("sval", TextVal(s), k);
    case Binary(op, l, r) =>
      EncodeWalks(l, k);
      EncodeWalks(r, k);
      WalkOperator("AEXPR_OP", op, Encode(l), Numbers(l), Encode(R.Renumber(l, k)), Encode(r), Numbers(r),
          Encode(R.Renumber(r, k)), k);
    case DistinctFrom(l, r) =>
      EncodeWalks(l, k);
      EncodeWalks(r, k);
      WalkOperator("AEXPR_DISTINCT", "=", Encode(l), Numbers(l), Encode(R.Renumber(l, k)), Encode(r), Numbers(r),
          Encode(R.Renumber(r, k)), k);
    case Between(_, x, low, high) => EncodeWalks(x, k); EncodeWalks(low, k); EncodeWalks(high, k); EncodeBetween(n, k);
    case InList(_, x, items) => EncodeWalks(x, k); EncodeAllWalks(items, k); EncodeInList(n, k);
    case Quantified(_, _, l, r) => EncodeWalks(l, k); EncodeWalks(r, k); EncodeQuantified(n, k);
    case NullTest(x, isNull) => EncodeWalks(x, k); WalkNullTest(x, isNull, k);
    case BoolExpr(op, args) => EncodeAllWalks(args, k); WalkBool(op, args, k);
    case Exists(table, alias, condition) =>
      EncodeWalks(condition, k);
      WalkSelect(table, alias, Encode(condition), Numbers(condition), Encode(R.Renumber(condition, k)), k);
      WalkSubLink(table, alias, condition, k);
  }

  lemma {:induction false} EncodeAllWalks(ns: seq<Node>, k: nat)
    ensures ListWalks(EncodeAll(ns), NumbersOfAll(ns), k, EncodeAll(R.RenumberAll(ns, k)))
    decreases ns, 0
  {
    if ns != [] {
      EncodeWalks(ns[0], k);
      EncodeAllWalks(ns[1..], k);
      WalkItem(Encode(ns[0]), Numbers(ns[0]), Encode(R.Renumber(ns[0], k)),
               EncodeAll(ns[1..]), NumbersOfAll(ns[1..]), EncodeAll(R.RenumberAll(ns[1..], k)), k);
      assert R.RenumberAll(ns, k)[1..] == R.RenumberAll(ns[1..], k);
    }
  }
}
