/**
 Conditions whose columns and relations are already resolved, as ON clauses compile them:
 packages/adapter-pgsql/src/resolved-condition-compiler.ts:248-271 and 505-801. The default filter of a
 relation stands to the left of the conditions inside it and is compiled after them, so placeholders
 come out once each and not in order.
 */
module ResolvedConditions {
  import opened Common
  import opened Ast
  import C = Conditions
  import M = ConditionMeaning
  import P = ParameterStates

  datatype Operand = Operand(qualifier: string, column: string)

  /** The right side of a comparison: another column, or a value, possibly marked with param(). */
  datatype Side = OtherColumn(operand: Operand) | Value(value: Datum, bound: bool)

  datatype Pair = Pair(fromColumn: string, toColumn: string)

  /** One EXISTS: its range, the columns that correlate it with the source, and the range's default filter. */
  datatype Hop = Hop(source: string, table: string, alias: string, pairs: seq<Pair>, filter: Option<Resolved>)

  datatype Resolved =
    | AllOf(conditions: seq<Resolved>)
    | OneOf(conditions: seq<Resolved>)
    | Negation(condition: Resolved)
    | NullCheck(left: Operand, isNull: bool)
    | Comparison(left: Operand, op: C.CompareOp, right: Side)
    | Membership(left: Operand, negated: bool, values: seq<Datum>)
    | Range(left: Operand, lower: Datum, upper: Datum)
    | Relation(mode: C.Mode, outer: seq<Hop>, innermost: Hop, where: Option<Resolved>)
  {
    /** Every without a condition, or with an empty AND, is resolved to this. */
    predicate Vacuous() { Relation? && mode == C.Every && where.None? }
  }

  // --- compilation -------------------------------------------------------------------------------

  function ColumnNode(x: Operand): Node { Column([x.qualifier, x.column]) }

  function CompileComparison(left: Node, op: C.CompareOp, right: Side, st: C.State): C.Compiled {
    match right
    case OtherColumn(x) => Ok((C.CompareNode(op, C.OpText(op), left, ColumnNode(x)), st))
    case Value(Null, false) =>
      if op == C.Eq then Ok((NullTest(left, true), st))
      else if op == C.Neq then Ok((NullTest(left, false), st))
      else if op == C.DistinctOp then Ok((DistinctFrom(left, NullConst), st))
      else Err(C.NullOperator)
    case Value(d, _) => C.CompareWithValue(op, left, d, st)
  }

  function CompileMembership(left: Node, negated: bool, values: seq<Datum>, arrays: bool, st: C.State): C.Compiled {
    if values == [] then Ok((BoolConst(negated), st))
    else if arrays then
      match C.Push(st, ArrayVal(values))
      case Err(e) => Err(e)
      case Ok((list, st1)) => Ok((Quantified(if negated then "<>" else "=", negated, left, list), st1))
    else
      match C.PushAll(st, values)
      case Err(e) => Err(e)
      case Ok((items, st1)) => Ok((InList(negated, left, items), st1))
  }

  function CompileRange(left: Node, lower: Datum, upper: Datum, st: C.State): C.Compiled {
    match C.Push(st, lower)
    case Err(e) => Err(e)
    case Ok((low, st1)) =>
      match C.Push(st1, upper)
      case Err(e) => Err(e)
      case Ok((high, st2)) => Ok((Between(false, left, low, high), st2))
  }

  function Equalities(source: string, target: string, pairs: seq<Pair>): (r: seq<Node>)
    ensures |r| == |pairs|
  {
    if pairs == [] then []
    else [Binary("=", Column([source, pairs[0].fromColumn]), Column([target, pairs[0].toColumn]))] +
         Equalities(source, target, pairs[1..])
  }

  function Correlation(source: string, target: string, pairs: seq<Pair>): Result<Node, C.Error> {
    var nodes := Equalities(source, target, pairs);
    if nodes == [] then Err(C.BadCorrelation)
    else if |nodes| == 1 then Ok(nodes[0])
    else Ok(BoolExpr(AndExpr, nodes))
  }

  function Both(a: Node, b: Node): Node { BoolExpr(AndExpr, [a, b]) }

  function With(quals: Node, inner: Option<Node>): Node {
    match inner case None => quals case Some(n) => Both(quals, n)
  }

  function Compile(r: Resolved, arrays: bool, st: C.State): C.Compiled
    decreases r, 1
  {
    match r
    case AllOf(conditions) => C.Wrap(AndExpr, CompileAll(conditions, arrays, st))
    case OneOf(conditions) => C.Wrap(OrExpr, CompileAll(conditions, arrays, st))
    case Negation(condition) => C.Negated(true, Compile(condition, arrays, st))
    case NullCheck(left, isNull) => Ok((NullTest(ColumnNode(left), isNull), st))
    case Comparison(left, op, right) => CompileComparison(ColumnNode(left), op, right, st)
    case Membership(left, negated, values) => CompileMembership(ColumnNode(left), negated, values, arrays, st)
    case Range(left, lower, upper) => CompileRange(ColumnNode(left), lower, upper, st)
    case Relation(mode, outer, innermost, where) =>
      if r.Vacuous() then Ok((BoolConst(true), st))
      else
        match CompilePredicate(where, mode == C.Every, arrays, st)
        case Err(e) => Err(e)
        case Ok((inner, st1)) =>
          match CompileHop(innermost, inner, arrays, st1)
          case Err(e) => Err(e)
          case Ok((chain, st2)) => C.Negated(mode != C.AtLeastOne, CompileHops(outer, chain, arrays, st2))
  }

  function CompileAll(rs: seq<Resolved>, arrays: bool, st: C.State): Result<(seq<Node>, C.State), C.Error>
    decreases rs, 0
  {
    if rs == [] then Ok(([], st))
    else
      match Compile(rs[0], arrays, st)
      case Err(e) => Err(e)
      case Ok((node, st1)) =>
        match CompileAll(rs[1..], arrays, st1)
        case Err(e) => Err(e)
        case Ok((nodes, st2)) => Ok(([node] + nodes, st2))
  }

  function CompilePredicate(where: Option<Resolved>, negated: bool, arrays: bool, st: C.State)
    : Result<(Option<Node>, C.State), C.Error>
    decreases where, 2
  {
    match where
    case None => Ok((None, st))
    case Some(p) =>
      match C.Negated(negated, Compile(p, arrays, st))
      case Err(e) => Err(e)
      case Ok((node, st1)) => Ok((Some(node), st1))
  }

  /** The subquery of one hop around what was compiled for the hops after it. */
  function CompileHop(h: Hop, inner: Option<Node>, arrays: bool, st: C.State): C.Compiled
    decreases h, 2
  {
    match Correlation(h.source, h.alias, h.pairs)
    case Err(e) => Err(e)
    case Ok(quals) =>
      match h.filter
      case None => Ok((Exists(h.table, h.alias, With(quals, inner)), st))
      case Some(f) =>
        match Compile(f, arrays, st)
        case Err(e) => Err(e)
        case Ok((node, st1)) => Ok((Exists(h.table, h.alias, With(Both(quals, node), inner)), st1))
  }

  /** From the last hop to the first. */
  function CompileHops(hs: seq<Hop>, inner: Node, arrays: bool, st: C.State): C.Compiled
    decreases hs, 3
  {
    if hs == [] then Ok((inner, st))
    else
      match CompileHop(hs[|hs| - 1], Some(inner), arrays, st)
      case Err(e) => Err(e)
      case Ok((node, st1)) => CompileHops(hs[..|hs| - 1], node, arrays, st1)
  }

  // --- every number once ---------------------------------------------------------------------------

  function Count(ns: seq<nat>, k: nat): nat {
    if ns == [] then 0 else (if ns[0] == k then 1 else 0) + Count(ns[1..], k)
  }

  lemma {:induction false} CountBoth(x: seq<nat>, y: seq<nat>, k: nat)
    ensures Count(x + y, k) == Count(x, k) + Count(y, k)
  {
    if x == [] {
      assert x + y == y;
    } else {
      assert (x + y)[1..] == x[1..] + y;
      CountBoth(x[1..], y, k);
    }
  }

  /** These are the numbers after m up to n, each once. */
  ghost predicate Once(ns: seq<nat>, m: nat, n: nat) {
    m <= n && forall k: nat :: Count(ns, k) == if m < k <= n then 1 else 0
  }

  lemma OnceOnwards(x: seq<nat>, y: seq<nat>, a: nat, b: nat, c: nat)
    requires Once(x, a, b) && Once(y, b, c)
    ensures Once(x + y, a, c) && Once(y + x, a, c)
  {
    forall k: nat ensures Count(x + y, k) == Count(y + x, k) == if a < k <= c then 1 else 0 {
      CountBoth(x, y, k);
      CountBoth(y, x, k);
    }
  }

  lemma {:induction false} OnceInOrder(m: nat, n: nat)
    ensures Once(P.After(m, n), m, m + n)
  {
    P.TwoNumbers(m);
    if n > 0 {
      OnceInOrder(m, n - 1);
      OnceAlone(m + n);
      OnceOnwards(P.After(m, n - 1), [m + n], m, m + n - 1, m + n);
    }
  }

  lemma OnceAlone(n: nat)
    requires n >= 1
    ensures Once([n], n - 1, n)
  {
    assert [n][1..] == [];
  }

  /** From a to b one value was recorded for each number given out, and these are those numbers, each once. */
  ghost predicate Issued(ns: seq<nat>, a: C.State, b: C.State) {
    M.Grows(a, b) && Once(ns, a.index, b.index)
  }

  ghost predicate Uses(r: C.Compiled, st: C.State) {
    r.Ok? ==> Issued(P.Numbers(r.value.0), st, r.value.1)
  }

  lemma IssuedNothing(st: C.State)
    ensures Issued([], st, st)
  {
  }

  lemma IssuedOnwards(x: seq<nat>, y: seq<nat>, a: C.State, b: C.State, c: C.State)
    requires Issued(x, a, b) && Issued(y, b, c)
    ensures Issued(x + y, a, c) && Issued(y + x, a, c)
  {
    OnceOnwards(x, y, a.index, b.index, c.index);
  }

  lemma PushIssues(st: C.State, d: Datum)
    requires C.Push(st, d).Ok?
    ensures var (node, st1) := C.Push(st, d).value;
      P.Numbers(node) == [st.index + 1] && Issued([st.index + 1], st, st1)
  {
    OnceAlone(st.index + 1);
  }

  lemma ComparisonUses(left: Operand, op: C.CompareOp, right: Side, st: C.State)
    ensures Uses(CompileComparison(ColumnNode(left), op, right, st), st)
  {
    IssuedNothing(st);
    match right
    case OtherColumn(x) => CompareNumbers(left, op, ColumnNode(x));
    case Value(d, _) =>
      if C.Push(st, d).Ok? {
        PushIssues(st, d);
        CompareNumbers(left, op, C.Push(st, d).value.0);
      }
  }

  lemma CompareNumbers(left: Operand, op: C.CompareOp, right: Node)
    ensures P.Numbers(C.CompareNode(op, C.OpText(op), ColumnNode(left), right)) == P.Numbers(right)
  {
    assert [] + P.Numbers(right) == P.Numbers(right);
  }

  lemma RangeUses(left: Operand, lower: Datum, upper: Datum, st: C.State)
    ensures Uses(CompileRange(ColumnNode(left), lower, upper, st), st)
  {
    if CompileRange(ColumnNode(left), lower, upper, st).Ok? {
      var (low, st1) := C.Push(st, lower).value;
      var (high, st2) := C.Push(st1, upper).value;
      PushIssues(st, lower);
      PushIssues(st1, upper);
      IssuedOnwards(P.Numbers(low), P.Numbers(high), st, st1, st2);
      assert P.Numbers(Between(false, ColumnNode(left), low, high)) == [] + P.Numbers(low) + P.Numbers(high);
      assert [] + P.Numbers(low) == P.Numbers(low);
    }
  }

  lemma ListUses(left: Operand, negated: bool, values: seq<Datum>, st: C.State)
    requires C.PushAll(st, values).Ok?
    ensures var (items, st1) := C.PushAll(st, values).value;
      Uses(Ok((InList(negated, ColumnNode(left), items), st1)), st)
  {
    var (items, st1) := C.PushAll(st, values).value;
    M.PushAllBinds(st, values);
    P.ParamsInOrder(items, st.index);
    OnceInOrder(st.index, |values|);
    assert P.Numbers(InList(negated, ColumnNode(left), items)) == [] + P.NumbersOfAll(items) == P.NumbersOfAll(items);
  }

  lemma ArrayUses(left: Operand, op: string, all: bool, d: Datum, st: C.State)
    requires C.Push(st, d).Ok?
    ensures Uses(Ok((Quantified(op, all, ColumnNode(left), C.Push(st, d).value.0), C.Push(st, d).value.1)), st)
  {
    var n := C.Push(st, d).value.0;
    PushIssues(st, d);
    assert P.Numbers(Quantified(op, all, ColumnNode(left), n)) == [] + P.Numbers(n) == P.Numbers(n);
  }

  lemma MembershipUses(left: Operand, negated: bool, values: seq<Datum>, arrays: bool, st: C.State)
    ensures Uses(CompileMembership(ColumnNode(left), negated, values, arrays, st), st)
  {
    IssuedNothing(st);
    if arrays {
      if C.Push(st, ArrayVal(values)).Ok? {
        ArrayUses(left, if negated then "<>" else "=", negated, ArrayVal(values), st);
      }
    } else if C.PushAll(st, values).Ok? {
      ListUses(left, negated, values, st);
    }
  }

  lemma {:induction false} EqualitiesHaveNoNumbers(source: string, target: string, pairs: seq<Pair>)
    ensures P.NumbersOfAll(Equalities(source, target, pairs)) == []
  {
    if pairs != [] {
      EqualitiesHaveNoNumbers(source, target, pairs[1..]);
      var nodes := Equalities(source, target, pairs);
      assert nodes[1..] == Equalities(source, target, pairs[1..]) && P.Numbers(nodes[0]) == [];
    }
  }

  lemma CorrelationHasNoNumbers(source: string, target: string, pairs: seq<Pair>)
    requires Correlation(source, target, pairs).Ok?
    ensures P.Numbers(Correlation(source, target, pairs).value) == []
  {
    EqualitiesHaveNoNumbers(source, target, pairs);
    var nodes := Equalities(source, target, pairs);
    if |nodes| == 1 {
      assert nodes == [nodes[0]];
      P.OneNumbers(nodes[0]);
    }
  }

  lemma BothNumbers(a: Node, b: Node)
    ensures P.Numbers(Both(a, b)) == P.Numbers(a) + P.Numbers(b)
  {
    assert [a, b][1..] == [b];
    P.OneNumbers(b);
  }

  lemma NegatedUses(negated: bool, r: C.Compiled, st: C.State)
    requires Uses(r, st)
    ensures Uses(C.Negated(negated, r), st)
  {
    if r.Ok? { P.OneNumbers(r.value.0); }
  }

  lemma WrapUses(op: BoolOp, r: Result<(seq<Node>, C.State), C.Error>, st: C.State)
    requires r.Ok? ==> Issued(P.NumbersOfAll(r.value.0), st, r.value.1)
    ensures Uses(C.Wrap(op, r), st)
  {
    if r.Ok? && |r.value.0| == 1 {
      assert r.value.0 == [r.value.0[0]];
      P.OneNumbers(r.value.0[0]);
    }
  }

  /** Whatever a resolved condition is made of, it uses every number given out for it exactly once. */
  lemma {:induction false} CompileUses(r: Resolved, arrays: bool, st: C.State)
    ensures Uses(Compile(r, arrays, st), st)
    decreases r, 1
  {
    match r
    case AllOf(conditions) =>
      CompileAllUses(conditions, arrays, st);
      WrapUses(AndExpr, CompileAll(conditions, arrays, st), st);
    case OneOf(conditions) =>
      CompileAllUses(conditions, arrays, st);
      WrapUses(OrExpr, CompileAll(conditions, arrays, st), st);
    case Negation(condition) =>
      CompileUses(condition, arrays, st);
      NegatedUses(true, Compile(condition, arrays, st), st);
    case NullCheck(_, _) => IssuedNothing(st);
    case Comparison(left, op, right) => ComparisonUses(left, op, right, st);
    case Membership(left, negated, values) => MembershipUses(left, negated, values, arrays, st);
    case Range(left, lower, upper) => RangeUses(left, lower, upper, st);
    case Relation(mode, outer, innermost, where) =>
      IssuedNothing(st);
      if !r.Vacuous() && CompilePredicate(where, mode == C.Every, arrays, st).Ok? {
        var (inner, st1) := CompilePredicate(where, mode == C.Every, arrays, st).value;
        CompilePredicateUses(where, mode == C.Every, arrays, st);
        CompileHopUses(innermost, inner, arrays, st, st1);
        if CompileHop(innermost, inner, arrays, st1).Ok? {
          var (chain, st2) := CompileHop(innermost, inner, arrays, st1).value;
          CompileHopsUses(outer, chain, arrays, st, st2);
          NegatedUses(mode != C.AtLeastOne, CompileHops(outer, chain, arrays, st2), st);
        }
      }
  }

  lemma {:induction false} CompileAllUses(rs: seq<Resolved>, arrays: bool, st: C.State)
    ensures var r := CompileAll(rs, arrays, st);
      r.Ok? ==> Issued(P.NumbersOfAll(r.value.0), st, r.value.1)
    decreases rs, 0
  {
    IssuedNothing(st);
    if rs != [] && CompileAll(rs, arrays, st).Ok? {
      var (node, st1) := Compile(rs[0], arrays, st).value;
      var (nodes, st2) := CompileAll(rs[1..], arrays, st1).value;
      CompileUses(rs[0], arrays, st);
      CompileAllUses(rs[1..], arrays, st1);
      assert ([node] + nodes)[1..] == nodes;
      IssuedOnwards(P.Numbers(node), P.NumbersOfAll(nodes), st, st1, st2);
    }
  }

  function OptNumbers(n: Option<Node>): seq<nat> { match n case None => [] case Some(x) => P.Numbers(x) }

  lemma {:induction false} CompilePredicateUses(where: Option<Resolved>, negated: bool, arrays: bool, st: C.State)
    ensures var r := CompilePredicate(where, negated, arrays, st);
      r.Ok? ==> Issued(OptNumbers(r.value.0), st, r.value.1)
    decreases where, 2
  {
    match where
    case None => IssuedNothing(st);
    case Some(p) =>
      CompileUses(p, arrays, st);
      NegatedUses(negated, Compile(p, arrays, st), st);
  }

  lemma WithNumbers(quals: Node, inner: Option<Node>)
    ensures P.Numbers(With(quals, inner)) == P.Numbers(quals) + OptNumbers(inner)
  {
    if inner.Some? { BothNumbers(quals, inner.value); }
  }

  lemma QualsNumbers(quals: Node, filter: Option<Node>, inner: Option<Node>)
    requires P.Numbers(quals) == []
    ensures P.Numbers(With(With(quals, filter), inner)) == OptNumbers(filter) + OptNumbers(inner)
  {
    WithNumbers(quals, filter);
    WithNumbers(With(quals, filter), inner);
    assert [] + OptNumbers(filter) == OptNumbers(filter);
  }

  /** The filter's numbers stand in front of those inside, and are given out after them. */
  lemma {:induction false} CompileHopUses(h: Hop, inner: Option<Node>, arrays: bool, start: C.State, st: C.State)
    requires Issued(OptNumbers(inner), start, st)
    ensures Uses(CompileHop(h, inner, arrays, st), start)
    decreases h, 2
  {
    var c := Correlation(h.source, h.alias, h.pairs);
    if c.Ok? {
      CorrelationHasNoNumbers(h.source, h.alias, h.pairs);
      match h.filter
      case None =>
        QualsNumbers(c.value, None, inner);
        assert [] + OptNumbers(inner) == OptNumbers(inner);
      case Some(f) =>
        CompileUses(f, arrays, st);
        if Compile(f, arrays, st).Ok? {
          var (node, st1) := Compile(f, arrays, st).value;
          QualsNumbers(c.value, Some(node), inner);
          IssuedOnwards(OptNumbers(inner), P.Numbers(node), start, st, st1);
        }
    }
  }

  lemma {:induction false} CompileHopsUses(hs: seq<Hop>, inner: Node, arrays: bool, start: C.State, st: C.State)
    requires Issued(P.Numbers(inner), start, st)
    ensures Uses(CompileHops(hs, inner, arrays, st), start)
    decreases hs, 3
  {
    if hs != [] {
      CompileHopUses(hs[|hs| - 1], Some(inner), arrays, start, st);
      if CompileHop(hs[|hs| - 1], Some(inner), arrays, st).Ok? {
        var (node, st1) := CompileHop(hs[|hs| - 1], Some(inner), arrays, st).value;
        CompileHopsUses(hs[..|hs| - 1], node, arrays, start, st1);
      }
    }
  }

  function EqualsNumber(x: Operand, n: nat): Node { Binary("=", ColumnNode(x), Param(n)) }

  lemma EqualityCompiles(x: Operand, d: Datum, st: C.State)
    requires st.index + 1 <= C.MAX_PARAM && d != Null
    ensures C.Push(st, d).Ok?
    ensures Compile(Comparison(x, C.Eq, Value(d, false)), true, st)
            == Ok((EqualsNumber(x, st.index + 1), C.Push(st, d).value.1))
    ensures P.Numbers(EqualsNumber(x, st.index + 1)) == [st.index + 1]
  {
    assert [] + [st.index + 1] == [st.index + 1];
  }

  /** One hop with a default filter around a condition: two values, and the second number comes first. */
  lemma FilterOutOfOrderExample(st: C.State, x: Operand, h: Hop, d: Datum, e: Datum)
    requires st.index + 2 <= C.MAX_PARAM && h.pairs != [] && d != Null && e != Null
    requires h.filter == Some(Comparison(x, C.Eq, Value(e, false)))
    ensures var r := Compile(Relation(C.AtLeastOne, [], h, Some(Comparison(x, C.Eq, Value(d, false)))), true, st);
      r.Ok? && P.Numbers(r.value.0) == [st.index + 2, st.index + 1] && r.value.1.params == st.params + [d, e]
  {
    var inner := EqualsNumber(x, st.index + 1);
    EqualityCompiles(x, d, st);
    FilteredHop(C.Push(st, d).value.1, x, h, e, inner);
    OneRangeCompiles(st, h, Comparison(x, C.Eq, Value(d, false)), inner, C.Push(st, d).value.1);
    TwoMore(st.params, d, e);
    assert [st.index + 2] + [st.index + 1] == [st.index + 2, st.index + 1];
  }

  /** A relation over one range compiles its condition first and then the range around it. */
  lemma OneRangeCompiles(st: C.State, h: Hop, where: Resolved, inner: Node, st1: C.State)
    requires Compile(where, true, st) == Ok((inner, st1))
    ensures Compile(Relation(C.AtLeastOne, [], h, Some(where)), true, st) == CompileHop(h, Some(inner), true, st1)
  {
    assert CompilePredicate(Some(where), false, true, st) == Ok((Some(inner), st1));
  }

  lemma TwoMore(params: seq<Datum>, d: Datum, e: Datum)
    ensures params + [d] + [e] == params + [d, e]
  {
  }

  lemma FilteredHop(st: C.State, x: Operand, h: Hop, e: Datum, inner: Node)
    requires st.index + 1 <= C.MAX_PARAM && h.pairs != [] && e != Null
    requires h.filter == Some(Comparison(x, C.Eq, Value(e, false)))
    ensures var r := CompileHop(h, Some(inner), true, st);
      && r.Ok? && C.Push(st, e).Ok? && r.value.1 == C.Push(st, e).value.1
      && P.Numbers(r.value.0) == [st.index + 1] + P.Numbers(inner)
  {
    EqualityCompiles(x, e, st);
    CorrelationHasNoNumbers(h.source, h.alias, h.pairs);
    var quals := Correlation(h.source, h.alias, h.pairs).value;
    QualsNumbers(quals, Some(EqualsNumber(x, st.index + 1)), Some(inner));
  }
}
