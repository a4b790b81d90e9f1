/**
 What conditions mean: SQL's three truth values (section 6.34 of ISO/IEC 9075-2:2003) over a
 database of rows, an array of parameter values and the rows that are in scope.
 */
module Semantics {
  import opened Ast

  datatype Truth = True | False | Unknown

  type Row = map<string, Datum>
  type Env = map<string, Row>

  /** The database: table contents, and what each operator computes on two non-null values. */
  datatype World = World(tables: map<string, seq<Row>>, ops: (string, Datum, Datum) -> Datum)

  function Not(t: Truth): Truth {
    match t case True => False case False => True case Unknown => Unknown
  }

  function IfTrue(b: bool): Truth { if b then True else False }

  /** A conjunction is false as soon as one conjunct is, and true only when all are. */
  function Conj(ts: set<Truth>): Truth {
    if False in ts then False else if Unknown in ts then Unknown else True
  }

  function Disj(ts: set<Truth>): Truth {
    if True in ts then True else if Unknown in ts then Unknown else False
  }

  function Rank(t: Truth): int {
    match t case False => 0 case Unknown => 1 case True => 2
  }

  /** A conjunction is the least of its truth values and a disjunction the greatest. */
  lemma LeastAndGreatest(ts: set<Truth>)
    ensures forall t | t in ts :: Rank(Conj(ts)) <= Rank(t) && Rank(t) <= Rank(Disj(ts))
    ensures if ts == {} then Conj(ts) == True && Disj(ts) == False else Conj(ts) in ts && Disj(ts) in ts
  {
    if ts != {} {
      var t :| t in ts;
      assert t == True || t == False || t == Unknown;
    }
  }

  function TruthOf(d: Datum): Truth {
    match d case BoolVal(b) => IfTrue(b) case _ => Unknown
  }

  function DatumOf(t: Truth): Datum {
    match t case True => BoolVal(true) case False => BoolVal(false) case Unknown => Null
  }

  /** Operators are strict in null. */
  function Apply(w: World, op: string, a: Datum, b: Datum): Datum {
    if a == Null || b == Null then Null else w.ops(CanonicalOp(op), a, b)
  }

  function Compare(w: World, op: string, a: Datum, b: Datum): Truth { TruthOf(Apply(w, op, a, b)) }

  /** Null-safe inequality never yields unknown. */
  function IsDistinct(w: World, a: Datum, b: Datum): Truth {
    if a == Null && b == Null then False
    else if a == Null || b == Null then True
    else IfTrue(Compare(w, "=", a, b) != True)
  }

  function Cell(row: Row, column: string): Datum { if column in row then row[column] else Null }

  function Rows(w: World, table: string): seq<Row> { if table in w.tables then w.tables[table] else [] }

  ghost function Eval(n: Node, env: Env, params: seq<Datum>, w: World): Datum
    decreases n, 1
  {
    match n
    case Column(fields) =>
      if |fields| == 2 && fields[0] in env then Cell(env[fields[0]], fields[1]) else Null
    case Param(k) => if 1 <= k <= |params| then params[k - 1] else Null
    case NullConst => Null
    case BoolConst(b) => BoolVal(b)
    case IntConst(k) => NumVal(k)
    case StringConst(s) => TextVal(s)
    case Binary(op, l, r) => Apply(w, op, Eval(l, env, params, w), Eval(r, env, params, w))
    case DistinctFrom(l, r) => DatumOf(IsDistinct(w, Eval(l, env, params, w), Eval(r, env, params, w)))
    case Between(negated, x, low, high) =>
      var v := Eval(x, env, params, w);
      var t := Conj({Compare(w, ">=", v, Eval(low, env, params, w)), Compare(w, "<=", v, Eval(high, env, params, w))});
      DatumOf(if negated then Not(t) else t)
    case InList(negated, x, items) =>
      var t := AnyOf(w, "=", Eval(x, env, params, w), EvalAll(items, env, params, w));
      DatumOf(if negated then Not(t) else t)
    case Quantified(op, all, l, r) =>
      (match Eval(r, env, params, w)
       case ArrayVal(values) =>
         var v := Eval(l, env, params, w);
         DatumOf(if all then AllOf(w, op, v, values) else AnyOf(w, op, v, values))
       case _ => Null)
    case NullTest(x, isNull) => BoolVal((Eval(x, env, params, w) == Null) == isNull)
    case BoolExpr(op, args) =>
      var ts := Truths(args, env, params, w);
      DatumOf(match op
              case AndExpr => Conj(ts)
              case OrExpr => Disj(ts)
              case NotExpr => Not(Conj(ts)))
    case Exists(table, alias, condition) =>
      BoolVal(exists row | row in Rows(w, table) :: TruthOf(Eval(condition, env[alias := row], params, w)) == True)
  }

  ghost function EvalAll(ns: seq<Node>, env: Env, params: seq<Datum>, w: World): (r: seq<Datum>)
    ensures |r| == |ns|
    decreases ns, 0
  {
    if ns == [] then [] else [Eval(ns[0], env, params, w)] + EvalAll(ns[1..], env, params, w)
  }

  ghost function Truths(ns: seq<Node>, env: Env, params: seq<Datum>, w: World): set<Truth>
    decreases ns, 0
  {
    if ns == [] then {} else {TruthOf(Eval(ns[0], env, params, w))} + Truths(ns[1..], env, params, w)
  }

  /** `v op ANY (values)` */
  function AnyOf(w: World, op: string, v: Datum, values: seq<Datum>): Truth {
    Disj(set d | d in values :: Compare(w, op, v, d))
  }

  /** `v op ALL (values)` */
  function AllOf(w: World, op: string, v: Datum, values: seq<Datum>): Truth {
    Conj(set d | d in values :: Compare(w, op, v, d))
  }

  /** The truth of a condition. */
  ghost function Holds(n: Node, env: Env, params: seq<Datum>, w: World): Truth {
    TruthOf(Eval(n, env, params, w))
  }

  lemma TruthOfDatum(t: Truth)
    ensures TruthOf(DatumOf(t)) == t
  {
  }

  /** NOT IN is NOT (.. IN ..) when `<>` is the negation of `=`. */
  ghost predicate Coherent(w: World) {
    forall a, b :: a != Null && b != Null ==> TruthOf(w.ops("<>", a, b)) == Not(TruthOf(w.ops("=", a, b)))
  }

  lemma NotInIsAllDifferent(w: World, v: Datum, values: seq<Datum>)
    requires Coherent(w)
    ensures AllOf(w, "<>", v, values) == Not(AnyOf(w, "=", v, values))
  {
    var equal := set d | d in values :: Compare(w, "=", v, d);
    var differ := set d | d in values :: Compare(w, "<>", v, d);
    forall d | d in values ensures Compare(w, "<>", v, d) == Not(Compare(w, "=", v, d)) {
      DifferentIsNotEqual(w, v, d);
    }
    forall t ensures t in differ <==> Not(t) in equal {
      if t in differ {
        var d :| d in values && Compare(w, "<>", v, d) == t;
        assert Compare(w, "=", v, d) == Not(t);
      }
      if Not(t) in equal {
        var d :| d in values && Compare(w, "=", v, d) == Not(t);
        assert Compare(w, "<>", v, d) == t;
      }
    }
    NotOfConj(differ, equal);
  }

  lemma DifferentIsNotEqual(w: World, a: Datum, b: Datum)
    requires Coherent(w)
    ensures Compare(w, "<>", a, b) == Not(Compare(w, "=", a, b))
  {
    assert CanonicalOp("<>") == "<>" && CanonicalOp("=") == "=";
  }

  lemma NotOfConj(differ: set<Truth>, equal: set<Truth>)
    requires forall t :: t in differ <==> Not(t) in equal
    ensures Conj(differ) == Not(Disj(equal))
  {
    assert False in differ <==> True in equal;
    assert Unknown in differ <==> Unknown in equal;
  }
}
