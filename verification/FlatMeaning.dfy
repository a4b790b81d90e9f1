/** Flattening a tree, as printing and parsing does, keeps its meaning. */
module FlatMeaning {
  import opened Ast
  import opened Semantics
  import opened Parser
  import opened PrintedTokens

  /** Nowhere a value is asked for stands an AND or OR list of one: it would turn its element into a
      truth value, and reads back as the element itself. */
  predicate Valued(n: Node) {
    match n
    case Binary(_, l, r) => !Lone(l) && !Lone(r) && Valued(l) && Valued(r)
    case DistinctFrom(l, r) => !Lone(l) && !Lone(r) && Valued(l) && Valued(r)
    case Between(_, x, low, high) =>
      !Lone(x) && !Lone(low) && !Lone(high) && Valued(x) && Valued(low) && Valued(high)
    case InList(_, x, items) => !Lone(x) && Valued(x) && forall i | i in items :: !Lone(i) && Valued(i)
    case Quantified(_, _, l, r) => !Lone(l) && !Lone(r) && Valued(l) && Valued(r)
    case NullTest(x, _) => !Lone(x) && Valued(x)
    case BoolExpr(_, args) => forall a | a in args :: Valued(a)
    case Exists(_, _, condition) => Valued(condition)
    case _ => true
  }

  lemma {:induction false} TruthsConcat(a: seq<Node>, b: seq<Node>, env: Env, params: seq<Datum>, w: World)
    ensures Truths(a + b, env, params, w) == Truths(a, env, params, w) + Truths(b, env, params, w)
  {
    if a == [] {
      assert a + b == b;
    } else {
      assert (a + b)[1..] == a[1..] + b;
      TruthsConcat(a[1..], b, env, params, w);
    }
  }

  function Combine(op: BoolOp, ts: set<Truth>): Truth
    requires op != NotExpr
  {
    if op == AndExpr then Conj(ts) else Disj(ts)
  }

  lemma CombineNested(op: BoolOp, a: set<Truth>, b: set<Truth>)
    requires op != NotExpr
    ensures Combine(op, a + b) == Combine(op, {Combine(op, a)} + b)
  {
  }

  lemma {:induction false} SpreadMeans(op: BoolOp, items: seq<Node>, env: Env, params: seq<Datum>, w: World)
    requires op != NotExpr
    ensures Combine(op, Truths(Spread(op, items), env, params, w)) == Combine(op, Truths(items, env, params, w))
  {
    if items != [] {
      var head := if items[0].Is(op) then items[0].args else [items[0]];
      var a := Truths(head, env, params, w);
      var b := Truths(Spread(op, items[1..]), env, params, w);
      var c := Truths(items[1..], env, params, w);
      var t := Holds(items[0], env, params, w);
      SpreadMeans(op, items[1..], env, params, w);
      TruthsConcat(head, Spread(op, items[1..]), env, params, w);
      assert Combine(op, a) == t by {
        if !items[0].Is(op) {
          assert head[1..] == [];
          assert a == {t};
        }
      }
      CombineNested(op, a, b);
      CombineNested(op, b, {t});
      CombineNested(op, c, {t});
      assert a + b == Truths(Spread(op, items), env, params, w);
      assert {t} + c == Truths(items, env, params, w);
      assert {t} + b == b + {t} && {t} + c == c + {t};
    }
  }

  lemma MakeBoolMeans(op: BoolOp, items: seq<Node>, env: Env, params: seq<Datum>, w: World)
    requires op != NotExpr && items != []
    ensures Holds(MakeBool(op, items), env, params, w) == Combine(op, Truths(items, env, params, w))
  {
    if |items| == 1 {
      assert items[1..] == [];
      assert Truths(items, env, params, w) == {Holds(items[0], env, params, w)};
    } else {
      SpreadMeans(op, items, env, params, w);
    }
  }

  lemma {:induction false} TruthsFlat(ns: seq<Node>, env: Env, params: seq<Datum>, w: World)
    requires forall n | n in ns :: WellSorted(n) && Valued(n)
    ensures Truths(FlatAll(ns), env, params, w) == Truths(ns, env, params, w)
    decreases ns, 0
  {
    if ns != [] {
      assert ns[0] in ns;
      FlatMeans(ns[0], env, params, w);
      TruthsFlat(ns[1..], env, params, w);
      assert FlatAll(ns)[1..] == FlatAll(ns[1..]);
    }
  }

  lemma {:induction false} EvalAllFlat(ns: seq<Node>, env: Env, params: seq<Datum>, w: World)
    requires forall n | n in ns :: WellSorted(n) && !Lone(n) && Valued(n)
    ensures EvalAll(FlatAll(ns), env, params, w) == EvalAll(ns, env, params, w)
    decreases ns, 0
  {
    if ns != [] {
      assert ns[0] in ns;
      FlatMeans(ns[0], env, params, w);
      EvalAllFlat(ns[1..], env, params, w);
      assert FlatAll(ns)[1..] == FlatAll(ns[1..]);
    }
  }

  lemma {:induction false} BoolFlat(n: Node, env: Env, params: seq<Datum>, w: World)
    requires WellSorted(n) && Valued(n) && n.BoolExpr?
    ensures Holds(Flat(n), env, params, w) == Holds(n, env, params, w)
    ensures !Lone(n) ==> Eval(Flat(n), env, params, w) == Eval(n, env, params, w)
    decreases n, 0
  {
    TruthsFlat(n.args, env, params, w);
    if n.boolop != NotExpr {
      MakeBoolMeans(n.boolop, FlatAll(n.args), env, params, w);
      if !Lone(n) { TruthDecides(Flat(n), n, env, params, w); }
    }
  }

  lemma TruthDecides(a: Node, b: Node, env: Env, params: seq<Datum>, w: World)
    requires a.BoolExpr? && b.BoolExpr? && Holds(a, env, params, w) == Holds(b, env, params, w)
    ensures Eval(a, env, params, w) == Eval(b, env, params, w)
  {
  }

  lemma ApplyCanonical(w: World, op: string, a: Datum, b: Datum)
    ensures Apply(w, CanonicalOp(op), a, b) == Apply(w, op, a, b)
  {
    assert CanonicalOp(CanonicalOp(op)) == CanonicalOp(op);
  }

  lemma QuantifiedCanonical(w: World, op: string, v: Datum, values: seq<Datum>)
    ensures AnyOf(w, CanonicalOp(op), v, values) == AnyOf(w, op, v, values)
    ensures AllOf(w, CanonicalOp(op), v, values) == AllOf(w, op, v, values)
  {
    forall d | d in values ensures Compare(w, CanonicalOp(op), v, d) == Compare(w, op, v, d) {
      ApplyCanonical(w, op, v, d);
    }
    assert (set d | d in values :: Compare(w, CanonicalOp(op), v, d)) == (set d | d in values :: Compare(w, op, v, d));
  }

  lemma {:induction false} QuantifiedFlat(n: Node, env: Env, params: seq<Datum>, w: World)
    requires WellSorted(n) && Valued(n) && n.Quantified?
    ensures Eval(Flat(n), env, params, w) == Eval(n, env, params, w)
    decreases n, 0
  {
    FlatMeans(n.left, env, params, w);
    FlatMeans(n.right, env, params, w);
    var values := Eval(n.right, env, params, w);
    if values.ArrayVal? { QuantifiedCanonical(w, n.op, Eval(n.left, env, params, w), values.items); }
  }

  lemma {:induction false} ExistsFlat(n: Node, env: Env, params: seq<Datum>, w: World)
    requires WellSorted(n) && Valued(n) && n.Exists?
    ensures Eval(Flat(n), env, params, w) == Eval(n, env, params, w)
    decreases n, 0
  {
    forall row | row in Rows(w, n.table)
      ensures Holds(Flat(n.condition), env[n.alias := row], params, w) ==
              Holds(n.condition, env[n.alias := row], params, w)
    {
      FlatMeans(n.condition, env[n.alias := row], params, w);
    }
  }

  /** The flattened tree has the truth of the tree, and its value unless it is a list of one. */
  lemma {:induction false} FlatMeans(n: Node, env: Env, params: seq<Datum>, w: World)
    requires WellSorted(n) && Valued(n)
    ensures Holds(Flat(n), env, params, w) == Holds(n, env, params, w)
    ensures !Lone(n) ==> Eval(Flat(n), env, params, w) == Eval(n, env, params, w)
    decreases n, 1
  {
    match n
    case Binary(op, l, r) =>
      FlatMeans(l, env, params, w);
      FlatMeans(r, env, params, w);
      ApplyCanonical(w, op, Eval(l, env, params, w), Eval(r, env, params, w));
    case DistinctFrom(l, r) => FlatMeans(l, env, params, w); FlatMeans(r, env, params, w);
    case Between(_, x, low, high) =>
      FlatMeans(x, env, params, w);
      FlatMeans(low, env, params, w);
      FlatMeans(high, env, params, w);
    case InList(_, x, items) => FlatMeans(x, env, params, w); EvalAllFlat(items, env, params, w);
    case Quantified(_, _, _, _) => QuantifiedFlat(n, env, params, w);
    case NullTest(x, _) => FlatMeans(x, env, params, w);
    case BoolExpr(_, _) => BoolFlat(n, env, params, w);
    case Exists(_, _, _) => ExistsFlat(n, env, params, w);
    case _ =>
  }
}
