/**
 What resolved conditions mean, stated without SQL over the rows in scope, and the proof that the nodes
 packages/adapter-pgsql/src/resolved-condition-compiler.ts:505-801 builds for them mean the same.
 */
module ResolvedMeaning {
  import opened Common
  import opened Ast
  import opened Semantics
  import C = Conditions
  import M = ConditionMeaning
  import opened ResolvedConditions

  // --- meaning -------------------------------------------------------------------------------------

  function ValueOf(x: Operand, env: Env): Datum {
    if x.qualifier in env then Cell(env[x.qualifier], x.column) else Null
  }

  /** The k-th range of a path. */
  function HopAt(r: Resolved, k: nat): Hop
    requires r.Relation? && k <= |r.outer|
  {
    if k < |r.outer| then r.outer[k] else r.innermost
  }

  /** The row in scope under the hop's alias has the key values of the row in scope under its source. */
  ghost predicate Correlated(h: Hop, w: World, env: Env) {
    h.pairs != [] &&
    forall i | 0 <= i < |h.pairs| ::
      Compare(w, "=", ValueOf(Operand(h.source, h.pairs[i].fromColumn), env),
              ValueOf(Operand(h.alias, h.pairs[i].toColumn), env)) == True
  }

  ghost function Meaning(r: Resolved, w: World, env: Env): Truth
    decreases r, 1
  {
    match r
    case AllOf(conditions) => Conj(Meanings(conditions, w, env))
    case OneOf(conditions) => Disj(Meanings(conditions, w, env))
    case Negation(condition) => Semantics.Not(Meaning(condition, w, env))
    case NullCheck(left, isNull) => IfTrue((ValueOf(left, env) == Null) == isNull)
    case Comparison(left, op, OtherColumn(x)) => C.CompareMeaning(w, op, ValueOf(left, env), ValueOf(x, env))
    case Comparison(left, op, Value(Null, false)) =>
      if op == C.Eq then IfTrue(ValueOf(left, env) == Null)
      else if op == C.Neq || op == C.DistinctOp then IfTrue(ValueOf(left, env) != Null)
      else Unknown
    case Comparison(left, op, Value(d, _)) => C.CompareMeaning(w, op, ValueOf(left, env), d)
    case Membership(left, negated, values) =>
      var t := AnyOf(w, "=", ValueOf(left, env), values);
      if negated then Semantics.Not(t) else t
    case Range(left, lower, upper) =>
      Conj({Compare(w, ">=", ValueOf(left, env), lower), Compare(w, "<=", ValueOf(left, env), upper)})
    case Relation(mode, _, _, _) => IfTrue((mode == C.AtLeastOne) == Found(r, 0, w, env))
  }

  ghost function Meanings(rs: seq<Resolved>, w: World, env: Env): set<Truth>
    decreases rs, 0
  {
    if rs == [] then {} else {Meaning(rs[0], w, env)} + Meanings(rs[1..], w, env)
  }

  /**
   From the k-th range on there are rows, each with the keys of the one before it and passing the default
   filter of its range, and the last one makes the condition true, or false where every row is asked for.
   No condition is true of every row.
   */
  ghost predicate Found(r: Resolved, k: nat, w: World, env: Env)
    requires r.Relation? && k <= |r.outer| + 1
    decreases r, 0, |r.outer| + 1 - k, 1
  {
    if k == |r.outer| + 1 then
      match r.where
      case None => r.mode != C.Every
      case Some(c) => Meaning(c, w, env) == if r.mode == C.Every then False else True
    else
      var h := HopAt(r, k);
      exists row | row in Rows(w, h.table) :: Fits(r, k, w, env[h.alias := row])
  }

  /** The row in scope for the k-th range is one to go on from. */
  ghost predicate Fits(r: Resolved, k: nat, w: World, env: Env)
    requires r.Relation? && k <= |r.outer|
    decreases r, 0, |r.outer| + 1 - k, 0
  {
    var h := HopAt(r, k);
    && Correlated(h, w, env)
    && (h.filter.Some? ==> Meaning(h.filter.value, w, env) == True)
    && Found(r, k + 1, w, env)
  }

  /** Without a condition no row makes it false. */
  lemma {:induction false} NothingFails(r: Resolved, k: nat, w: World, env: Env)
    requires r.Relation? && r.mode == C.Every && r.where.None? && k <= |r.outer| + 1
    ensures !Found(r, k, w, env)
    decreases |r.outer| + 1 - k
  {
    if k <= |r.outer| {
      var h := HopAt(r, k);
      if Found(r, k, w, env) {
        var row :| row in Rows(w, h.table) && Fits(r, k, w, env[h.alias := row]);
        NothingFails(r, k + 1, w, env[h.alias := row]);
      }
    }
  }

  // --- atoms ---------------------------------------------------------------------------------------

  lemma ColumnMeans(x: Operand, env: Env, final: seq<Datum>, w: World)
    ensures Eval(ColumnNode(x), env, final, w) == ValueOf(x, env)
  {
  }

  lemma ComparisonMeans(left: Operand, op: C.CompareOp, right: Side, st: C.State, env: Env, final: seq<Datum>, w: World)
    requires var r := CompileComparison(ColumnNode(left), op, right, st); r.Ok? && M.Carries(final, st, r.value.1)
    ensures Holds(CompileComparison(ColumnNode(left), op, right, st).value.0, env, final, w)
            == Meaning(Comparison(left, op, right), w, env)
  {
    match right
    case OtherColumn(x) =>
      ColumnMeans(left, env, final, w);
      ColumnMeans(x, env, final, w);
      M.CompareNodeMeans(op, C.OpText(op), ColumnNode(left), ColumnNode(x), env, final, w);
    case Value(Null, false) => LiteralNullMeans(left, op, st, env, final, w);
    case Value(d, _) => ValueMeans(left, op, d, st, env, final, w);
  }

  lemma ValueMeans(left: Operand, op: C.CompareOp, d: Datum, st: C.State, env: Env, final: seq<Datum>, w: World)
    requires var r := C.CompareWithValue(op, ColumnNode(left), d, st); r.Ok? && M.Carries(final, st, r.value.1)
    ensures Holds(C.CompareWithValue(op, ColumnNode(left), d, st).value.0, env, final, w)
            == C.CompareMeaning(w, op, ValueOf(left, env), d)
  {
    ColumnMeans(left, env, final, w);
    M.CarriesOne(final, st, d);
    assert Eval(Param(st.index + 1), env, final, w) == d;
    M.CompareNodeMeans(op, C.OpText(op), ColumnNode(left), Param(st.index + 1), env, final, w);
  }

  lemma LiteralNullMeans(left: Operand, op: C.CompareOp, st: C.State, env: Env, final: seq<Datum>, w: World)
    requires CompileComparison(ColumnNode(left), op, Value(Null, false), st).Ok?
    ensures Holds(CompileComparison(ColumnNode(left), op, Value(Null, false), st).value.0, env, final, w)
            == Meaning(Comparison(left, op, Value(Null, false)), w, env)
  {
    ColumnMeans(left, env, final, w);
    assert Eval(NullConst, env, final, w) == Null;
    M.CompareNodeMeans(C.DistinctOp, "=", ColumnNode(left), NullConst, env, final, w);
  }

  lemma RangeMeans(left: Operand, lower: Datum, upper: Datum, st: C.State, env: Env, final: seq<Datum>, w: World)
    requires var r := CompileRange(ColumnNode(left), lower, upper, st); r.Ok? && M.Carries(final, st, r.value.1)
    ensures Holds(CompileRange(ColumnNode(left), lower, upper, st).value.0, env, final, w)
            == Meaning(Range(left, lower, upper), w, env)
  {
    var st1 := C.Push(st, lower).value.1;
    var st2 := C.Push(st1, upper).value.1;
    ColumnMeans(left, env, final, w);
    M.CarriesParts(final, st, st1, st2);
    M.CarriesOne(final, st, lower);
    M.CarriesOne(final, st1, upper);
    assert Eval(Param(st.index + 1), env, final, w) == lower;
    assert Eval(Param(st.index + 2), env, final, w) == upper;
    TruthOfDatum(Meaning(Range(left, lower, upper), w, env));
  }

  lemma ItemsEval(values: seq<Datum>, st: C.State, env: Env, final: seq<Datum>, w: World)
    requires C.PushAll(st, values).Ok? && M.Carries(final, st, C.PushAll(st, values).value.1)
    ensures EvalAll(C.PushAll(st, values).value.0, env, final, w) == values
  {
    var (items, st1) := C.PushAll(st, values).value;
    M.PushAllBinds(st, values);
    assert st1.params[|st.params|..] == values;
    M.EvalParams(items, st.index, values, env, final, w);
  }

  lemma ListMeans(left: Operand, negated: bool, values: seq<Datum>, st: C.State, env: Env, final: seq<Datum>, w: World)
    requires C.PushAll(st, values).Ok? && M.Carries(final, st, C.PushAll(st, values).value.1)
    ensures Holds(InList(negated, ColumnNode(left), C.PushAll(st, values).value.0), env, final, w)
            == Meaning(Membership(left, negated, values), w, env)
  {
    ColumnMeans(left, env, final, w);
    ItemsEval(values, st, env, final, w);
    TruthOfDatum(Meaning(Membership(left, negated, values), w, env));
  }

  lemma ArrayMeans(left: Operand, negated: bool, values: seq<Datum>, st: C.State, env: Env, final: seq<Datum>, w: World)
    requires C.Push(st, ArrayVal(values)).Ok? && M.Carries(final, st, C.Push(st, ArrayVal(values)).value.1)
    requires Coherent(w)
    ensures var op := if negated then "<>" else "=";
      Holds(Quantified(op, negated, ColumnNode(left), Param(st.index + 1)), env, final, w)
            == Meaning(Membership(left, negated, values), w, env)
  {
    ColumnMeans(left, env, final, w);
    M.CarriesOne(final, st, ArrayVal(values));
    assert Eval(Param(st.index + 1), env, final, w) == ArrayVal(values);
    if negated { NotInIsAllDifferent(w, ValueOf(left, env), values); }
    TruthOfDatum(Meaning(Membership(left, negated, values), w, env));
  }

  lemma MembershipMeans(left: Operand, negated: bool, values: seq<Datum>, arrays: bool, st: C.State, env: Env,
      final: seq<Datum>, w: World)
    requires Coherent(w)
    requires var r := CompileMembership(ColumnNode(left), negated, values, arrays, st);
      r.Ok? && M.Carries(final, st, r.value.1)
    ensures Holds(CompileMembership(ColumnNode(left), negated, values, arrays, st).value.0, env, final, w)
            == Meaning(Membership(left, negated, values), w, env)
  {
    if values == [] {
      M.AnyOfNothing(w, ValueOf(left, env));
    } else if arrays {
      ArrayMeans(left, negated, values, st, env, final, w);
    } else {
      ListMeans(left, negated, values, st, env, final, w);
    }
  }

  // --- one range of a path -----------------------------------------------------------------------------

  lemma EqualitiesMean(source: string, target: string, pairs: seq<Pair>, i: nat, env: Env, final: seq<Datum>, w: World)
    requires i < |pairs|
    ensures Holds(Equalities(source, target, pairs)[i], env, final, w)
            == Compare(w, "=", ValueOf(Operand(source, pairs[i].fromColumn), env),
                       ValueOf(Operand(target, pairs[i].toColumn), env))
  {
    EqualityAt(source, target, pairs, i);
    ColumnMeans(Operand(source, pairs[i].fromColumn), env, final, w);
    ColumnMeans(Operand(target, pairs[i].toColumn), env, final, w);
  }

  lemma {:induction false} EqualityAt(source: string, target: string, pairs: seq<Pair>, i: nat)
    requires i < |pairs|
    ensures Equalities(source, target, pairs)[i]
            == Binary("=", ColumnNode(Operand(source, pairs[i].fromColumn)),
                      ColumnNode(Operand(target, pairs[i].toColumn)))
  {
    if i > 0 { EqualityAt(source, target, pairs[1..], i - 1); }
  }

  lemma CorrelationMeans(h: Hop, env: Env, final: seq<Datum>, w: World)
    requires Correlation(h.source, h.alias, h.pairs).Ok?
    ensures (Holds(Correlation(h.source, h.alias, h.pairs).value, env, final, w) == True) <==> Correlated(h, w, env)
  {
    var nodes := Equalities(h.source, h.alias, h.pairs);
    forall i | 0 <= i < |h.pairs|
      ensures Holds(nodes[i], env, final, w)
              == Compare(w, "=", ValueOf(Operand(h.source, h.pairs[i].fromColumn), env),
                         ValueOf(Operand(h.alias, h.pairs[i].toColumn), env))
    {
      EqualitiesMean(h.source, h.alias, h.pairs, i, env, final, w);
    }
    M.AllTrue(nodes, env, final, w);
    if |nodes| == 1 { assert nodes[0] == Correlation(h.source, h.alias, h.pairs).value; }
  }

  /** An optional node is true wherever it is absent. */
  ghost predicate OptTrue(n: Option<Node>, env: Env, final: seq<Datum>, w: World) {
    n.Some? ==> Holds(n.value, env, final, w) == True
  }

  lemma WithTrue(quals: Node, n: Option<Node>, env: Env, final: seq<Datum>, w: World)
    ensures (Holds(With(quals, n), env, final, w) == True)
            <==> Holds(quals, env, final, w) == True && OptTrue(n, env, final, w)
  {
    if n.Some? { M.BothTrue(quals, n.value, env, final, w); }
  }

  /** The subquery of one range finds the rows from that range on. */
  lemma ExistsMeans(r: Resolved, k: nat, quals: Node, filter: Option<Node>, inner: Option<Node>, env: Env,
      final: seq<Datum>, w: World)
    requires r.Relation? && k <= |r.outer|
    requires Correlation(HopAt(r, k).source, HopAt(r, k).alias, HopAt(r, k).pairs) == Ok(quals)
    requires filter.Some? == HopAt(r, k).filter.Some?
    requires filter.Some? ==>
      forall e: Env :: Holds(filter.value, e, final, w) == Meaning(HopAt(r, k).filter.value, w, e)
    requires forall e: Env :: Found(r, k + 1, w, e) <==> OptTrue(inner, e, final, w)
    ensures Holds(Exists(HopAt(r, k).table, HopAt(r, k).alias, With(With(quals, filter), inner)), env, final, w)
            == IfTrue(Found(r, k, w, env))
  {
    var h := HopAt(r, k);
    var condition := With(With(quals, filter), inner);
    forall e: Env ensures (Holds(condition, e, final, w) == True) <==> Fits(r, k, w, e) {
      WithTrue(With(quals, filter), inner, e, final, w);
      WithTrue(quals, filter, e, final, w);
      CorrelationMeans(h, e, final, w);
    }
    ExistsFinds(r, k, condition, env, final, w);
  }

  lemma ExistsFinds(r: Resolved, k: nat, condition: Node, env: Env, final: seq<Datum>, w: World)
    requires r.Relation? && k <= |r.outer|
    requires forall e: Env :: (Holds(condition, e, final, w) == True) <==> Fits(r, k, w, e)
    ensures Holds(Exists(HopAt(r, k).table, HopAt(r, k).alias, condition), env, final, w) == IfTrue(Found(r, k, w, env))
  {
    var h := HopAt(r, k);
    assert Holds(Exists(h.table, h.alias, condition), env, final, w)
        == IfTrue(exists row | row in Rows(w, h.table) :: Holds(condition, env[h.alias := row], final, w) == True);
  }

  lemma HopGrows(h: Hop, inner: Option<Node>, arrays: bool, st: C.State)
    requires CompileHop(h, inner, arrays, st).Ok?
    ensures M.Grows(st, CompileHop(h, inner, arrays, st).value.1)
  {
    if h.filter.Some? { CompileUses(h.filter.value, arrays, st); }
  }

  lemma {:induction false} HopsGrow(hs: seq<Hop>, inner: Node, arrays: bool, st: C.State)
    requires CompileHops(hs, inner, arrays, st).Ok?
    ensures M.Grows(st, CompileHops(hs, inner, arrays, st).value.1)
    decreases |hs|
  {
    if hs != [] {
      HopGrows(hs[|hs| - 1], Some(inner), arrays, st);
      var (node, st1) := CompileHop(hs[|hs| - 1], Some(inner), arrays, st).value;
      HopsGrow(hs[..|hs| - 1], node, arrays, st1);
    }
  }

  // --- the theorem ---------------------------------------------------------------------------------------

  /**
   Compiled from any parameter state, a resolved condition keeps its meaning under every array that
   carries its values.
   */
  lemma {:induction false} CompileMeans(r: Resolved, arrays: bool, st: C.State, env: Env, final: seq<Datum>, w: World)
    requires Coherent(w) && Compile(r, arrays, st).Ok? && M.Carries(final, st, Compile(r, arrays, st).value.1)
    ensures Holds(Compile(r, arrays, st).value.0, env, final, w) == Meaning(r, w, env)
    decreases r, 1
  {
    match r
    case AllOf(conditions) =>
      CompileAllMeans(conditions, arrays, st, env, final, w);
      var (nodes, st1) := CompileAll(conditions, arrays, st).value;
      M.WrapMeans(AndExpr, nodes, st1, env, final, w);
    case OneOf(conditions) =>
      CompileAllMeans(conditions, arrays, st, env, final, w);
      var (nodes, st1) := CompileAll(conditions, arrays, st).value;
      M.WrapMeans(OrExpr, nodes, st1, env, final, w);
    case Negation(condition) =>
      CompileMeans(condition, arrays, st, env, final, w);
      M.NotMeans(Compile(condition, arrays, st).value.0, env, final, w);
    case NullCheck(left, _) => ColumnMeans(left, env, final, w);
    case Comparison(left, op, right) => ComparisonMeans(left, op, right, st, env, final, w);
    case Membership(left, negated, values) => MembershipMeans(left, negated, values, arrays, st, env, final, w);
    case Range(left, lower, upper) => RangeMeans(left, lower, upper, st, env, final, w);
    case Relation(_, _, _, _) =>
      if r.Vacuous() { NothingFails(r, 0, w, env); } else { RelationMeans(r, arrays, st, env, final, w); }
  }

  lemma {:induction false} CompileAllMeans(rs: seq<Resolved>, arrays: bool, st: C.State, env: Env, final: seq<Datum>,
      w: World)
    requires Coherent(w) && CompileAll(rs, arrays, st).Ok? && M.Carries(final, st, CompileAll(rs, arrays, st).value.1)
    ensures Truths(CompileAll(rs, arrays, st).value.0, env, final, w) == Meanings(rs, w, env)
    decreases rs, 0
  {
    if rs != [] {
      var (node, st1) := Compile(rs[0], arrays, st).value;
      var (nodes, st2) := CompileAll(rs[1..], arrays, st1).value;
      CompileUses(rs[0], arrays, st);
      CompileAllUses(rs[1..], arrays, st1);
      M.CarriesParts(final, st, st1, st2);
      CompileMeans(rs[0], arrays, st, env, final, w);
      CompileAllMeans(rs[1..], arrays, st1, env, final, w);
      assert ([node] + nodes)[1..] == nodes;
    }
  }

  /** The condition at the end of the path. */
  lemma {:induction false} EndMeans(r: Resolved, arrays: bool, st: C.State, final: seq<Datum>, w: World)
    requires Coherent(w) && r.Relation? && !r.Vacuous()
    requires var c := CompilePredicate(r.where, r.mode == C.Every, arrays, st);
      c.Ok? && M.Carries(final, st, c.value.1)
    ensures var inner := CompilePredicate(r.where, r.mode == C.Every, arrays, st).value.0;
      forall e: Env :: Found(r, |r.outer| + 1, w, e) <==> OptTrue(inner, e, final, w)
    decreases r, 0, 0
  {
    var inner := CompilePredicate(r.where, r.mode == C.Every, arrays, st).value.0;
    if r.where.Some? {
      var node := Compile(r.where.value, arrays, st).value.0;
      forall e: Env ensures Found(r, |r.outer| + 1, w, e) <==> OptTrue(inner, e, final, w) {
        CompileMeans(r.where.value, arrays, st, e, final, w);
        M.NotMeans(node, e, final, w);
      }
    }
  }

  /** One range, given that what is inside it finds the rows from the next range on. */
  lemma {:induction false} HopMeans(r: Resolved, k: nat, inner: Option<Node>, arrays: bool, st: C.State,
      final: seq<Datum>, w: World)
    requires Coherent(w) && r.Relation? && k <= |r.outer|
    requires var c := CompileHop(HopAt(r, k), inner, arrays, st); c.Ok? && M.Carries(final, st, c.value.1)
    requires forall e: Env :: Found(r, k + 1, w, e) <==> OptTrue(inner, e, final, w)
    ensures forall e: Env :: Holds(CompileHop(HopAt(r, k), inner, arrays, st).value.0, e, final, w)
                             == IfTrue(Found(r, k, w, e))
    decreases r, 0, 0
  {
    var h := HopAt(r, k);
    var quals := Correlation(h.source, h.alias, h.pairs).value;
    var filter: Option<Node> := None;
    if h.filter.Some? {
      filter := Some(Compile(h.filter.value, arrays, st).value.0);
      forall e: Env ensures Holds(filter.value, e, final, w) == Meaning(h.filter.value, w, e) {
        CompileMeans(h.filter.value, arrays, st, e, final, w);
      }
    }
    forall e: Env
      ensures Holds(CompileHop(h, inner, arrays, st).value.0, e, final, w) == IfTrue(Found(r, k, w, e))
    {
      ExistsMeans(r, k, quals, filter, inner, e, final, w);
    }
  }

  /** The ranges before the k-th one, given that the chain built so far finds the rows from the k-th on. */
  lemma {:induction false} HopsMean(r: Resolved, k: nat, chain: Node, arrays: bool, st: C.State, final: seq<Datum>,
      w: World)
    requires Coherent(w) && r.Relation? && k <= |r.outer|
    requires var c := CompileHops(r.outer[..k], chain, arrays, st); c.Ok? && M.Carries(final, st, c.value.1)
    requires forall e: Env :: Holds(chain, e, final, w) == IfTrue(Found(r, k, w, e))
    ensures forall e: Env :: Holds(CompileHops(r.outer[..k], chain, arrays, st).value.0, e, final, w)
                             == IfTrue(Found(r, 0, w, e))
    decreases r, 0, k
  {
    if k > 0 {
      assert r.outer[..k][k - 1] == HopAt(r, k - 1) && r.outer[..k][..k - 1] == r.outer[..k - 1];
      var (node, st1) := CompileHop(HopAt(r, k - 1), Some(chain), arrays, st).value;
      HopGrows(HopAt(r, k - 1), Some(chain), arrays, st);
      HopsGrow(r.outer[..k - 1], node, arrays, st1);
      M.CarriesParts(final, st, st1, CompileHops(r.outer[..k], chain, arrays, st).value.1);
      HopMeans(r, k - 1, Some(chain), arrays, st, final, w);
      HopsMean(r, k - 1, node, arrays, st1, final, w);
    }
  }

  lemma {:induction false} RelationMeans(r: Resolved, arrays: bool, st: C.State, env: Env, final: seq<Datum>, w: World)
    requires Coherent(w) && r.Relation? && !r.Vacuous()
    requires Compile(r, arrays, st).Ok? && M.Carries(final, st, Compile(r, arrays, st).value.1)
    ensures Holds(Compile(r, arrays, st).value.0, env, final, w) == Meaning(r, w, env)
    decreases r, 0, |r.outer| + 1
  {
    var n := |r.outer|;
    var (inner, st1) := CompilePredicate(r.where, r.mode == C.Every, arrays, st).value;
    var (chain, st2) := CompileHop(r.innermost, inner, arrays, st1).value;
    var (node, st3) := CompileHops(r.outer, chain, arrays, st2).value;
    CompilePredicateUses(r.where, r.mode == C.Every, arrays, st);
    HopGrows(r.innermost, inner, arrays, st1);
    HopsGrow(r.outer, chain, arrays, st2);
    M.CarriesParts(final, st, st1, st3);
    M.CarriesParts(final, st1, st2, st3);
    EndMeans(r, arrays, st, final, w);
    HopMeans(r, n, inner, arrays, st1, final, w);
    assert r.outer[..n] == r.outer;
    HopsMean(r, n, chain, arrays, st2, final, w);
    M.NotMeans(node, env, final, w);
  }
}
