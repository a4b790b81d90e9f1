/**
 One condition, different parameter states: numbers come out in order, and compiling apart and
 renumbering is compiling in place. From packages/adapter-pgsql/src/condition-subquery.ts and
 the callers in condition-compiler-factory.ts and adapter-compiler-mutations.ts.
 */
module ParameterStates {
  import opened Common
  import opened Ast
  import opened Conditions
  import opened ConditionMeaning
  import opened Acceptance
  import opened Renumbering

  // --- numbers in order --------------------------------------------------------------------------

  /** The placeholder numbers of a tree, left to right. */
  function Numbers(n: Node): seq<nat>
    decreases n, 1
  {
    match n
    case Param(k) => [k]
    case Binary(_, l, r) => Numbers(l) + Numbers(r)
    case DistinctFrom(l, r) => Numbers(l) + Numbers(r)
    case Between(_, x, low, high) => Numbers(x) + Numbers(low) + Numbers(high)
    case InList(_, x, items) => Numbers(x) + NumbersOfAll(items)
    case Quantified(_, _, l, r) => Numbers(l) + Numbers(r)
    case NullTest(x, _) => Numbers(x)
    case BoolExpr(_, args) => NumbersOfAll(args)
    case Exists(_, _, condition) => Numbers(condition)
    case _ => []
  }

  function NumbersOfAll(ns: seq<Node>): seq<nat>
    decreases ns, 0
  {
    if ns == [] then [] else Numbers(ns[0]) + NumbersOfAll(ns[1..])
  }

  /** The n numbers after k. */
  function After(k: nat, n: nat): (r: seq<nat>)
    ensures |r| == n
  {
    if n == 0 then [] else After(k, n - 1) + [k + n]
  }

  lemma {:induction false} AfterJoins(k: nat, m: nat, n: nat)
    ensures After(k, m) + After(k + m, n) == After(k, m + n)
  {
    if n > 0 {
      AfterJoins(k, m, n - 1);
      assert After(k, m) + (After(k + m, n - 1) + [k + m + n]) == After(k, m) + After(k + m, n - 1) + [k + m + n];
    }
  }

  lemma {:induction false} NumbersLast(ns: seq<Node>, n: Node)
    ensures NumbersOfAll(ns + [n]) == NumbersOfAll(ns) + Numbers(n)
  {
    if ns == [] {
      assert ns + [n] == [n] && [n][1..] == [];
    } else {
      assert (ns + [n])[1..] == ns[1..] + [n];
      NumbersLast(ns[1..], n);
    }
  }

  lemma {:induction false} ParamsInOrder(ns: seq<Node>, k: nat)
    requires forall i | 0 <= i < |ns| :: ns[i] == Param(k + 1 + i)
    ensures NumbersOfAll(ns) == After(k, |ns|)
  {
    if ns != [] {
      ParamsInOrder(ns[1..], k + 1);
      TwoNumbers(k);
      AfterJoins(k, 1, |ns| - 1);
    }
  }

  lemma {:induction false} NoNumbers(ns: seq<Node>)
    requires forall n | n in ns :: Numbers(n) == []
    ensures NumbersOfAll(ns) == []
  {
    if ns != [] { NoNumbers(ns[1..]); }
  }

  lemma CorrelationHasNoNumbers(a: string, hop: Hop, alias: string)
    requires KeyCorrelation(a, hop.source, alias, hop.keys).Ok?
    ensures Numbers(KeyCorrelation(a, hop.source, alias, hop.keys).value) == []
  {
    NoNumbers(Equalities(a, hop.source, alias, hop.keys));
  }

  predicate InOrder(r: Compiled, st: State) {
    r.Ok? ==> st.index <= r.value.1.index && Numbers(r.value.0) == After(st.index, r.value.1.index - st.index)
  }

  lemma TwoNumbers(k: nat)
    ensures After(k, 0) == [] && After(k, 1) == [k + 1] && After(k, 2) == [k + 1, k + 2]
  {
    assert After(k, 1) == After(k, 0) + [k + 1];
    assert After(k, 2) == After(k, 1) + [k + 2];
  }

  /** A node without placeholders takes no number. */
  lemma NothingInOrder(n: Node, st: State)
    requires Numbers(n) == []
    ensures InOrder(Ok((n, st)), st)
  {
    TwoNumbers(st.index);
  }

  lemma CompareNumbers(op: CompareOp, text: string, left: Node, right: Node)
    requires left.Column?
    ensures Numbers(CompareNode(op, text, left, right)) == Numbers(right)
  {
    assert Numbers(left) + Numbers(right) == Numbers(right);
  }

  lemma ComparisonInOrder(field: string, op: CompareOp, operand: Operand, ctx: Ctx, st: State)
    ensures InOrder(CompileComparison(field, op, operand, ctx, st), st)
  {
    var left := ColumnOf(field, ctx);
    match operand
    case OuterField(column) =>
      if ctx.outer.Some? {
        CompareNumbers(op, if op == Neq then "!=" else OpText(op), left, Column([ctx.outer.value, column]));
      }
      TwoNumbers(st.index);
    case Literal(Null) =>
      TwoNumbers(st.index);
    case Literal(d) => ValueInOrder(op, left, d, st);
    case Marked(d) => ValueInOrder(op, left, d, st);
  }

  lemma ValueInOrder(op: CompareOp, left: Node, d: Datum, st: State)
    requires left.Column?
    ensures InOrder(CompareWithValue(op, left, d, st), st)
  {
    TwoNumbers(st.index);
    CompareNumbers(op, OpText(op), left, Param(st.index + 1));
  }

  lemma RangeInOrder(field: string, low: Datum, high: Datum, ctx: Ctx, st: State)
    ensures InOrder(CompileRange(field, low, high, ctx, st), st)
  {
    TwoNumbers(st.index);
    BetweenNumbers(ColumnOf(field, ctx), st.index);
  }

  lemma BetweenNumbers(left: Node, i: nat)
    requires left.Column?
    ensures Numbers(Between(false, left, Param(i + 1), Param(i + 2))) == [i + 1, i + 2]
  {
    assert Numbers(left) == [];
  }

  lemma MembershipInOrder(field: string, negated: bool, values: seq<Datum>, s: Schema, ctx: Ctx, st: State)
    ensures InOrder(CompileMembership(field, negated, values, s, ctx, st), st)
  {
    var left := ColumnOf(field, ctx);
    TwoNumbers(st.index);
    if s.supportsArrays {
      assert Numbers(Quantified(if negated then "<>" else "=", negated, left, Param(st.index + 1))) == [st.index + 1];
    } else if PushAll(st, values).Ok? {
      ListInOrder(left, negated, values, st);
    }
  }

  lemma ListInOrder(left: Node, negated: bool, values: seq<Datum>, st: State)
    requires left.Column? && PushAll(st, values).Ok?
    ensures InOrder(Ok((InList(negated, left, PushAll(st, values).value.0), PushAll(st, values).value.1)), st)
  {
    var items := PushAll(st, values).value.0;
    PushAllBinds(st, values);
    ParamsInOrder(items, st.index);
    assert Numbers(left) + NumbersOfAll(items) == NumbersOfAll(items);
  }

  lemma {:induction false} RelationInOrder(c: Intent, s: Schema, ctx: Ctx, st: State)
    requires (c.Related? || c.RelationFilter?) && Compile(c, s, ctx, st).Ok?
    ensures InOrder(Compile(c, s, ctx, st), st)
    decreases Size(c), 0
  {
    match c
    case Related(relation, negated, where) =>
      CompileInOrder(Via(HopOf(Resolve(s.model.value, ctx.rootTable, relation).value), negated, where), s, ctx, st);
    case RelationFilter(path, mode, where) =>
      if mode == Every && Vacuous(where) {
        TwoNumbers(st.index);
      } else {
        FilterLowers(c, s, ctx, st);
        CompileInOrder(Nest(Hops(s, ctx.rootTable, path).value, mode != AtLeastOne, Innermost(mode, where)), s, ctx,
            st);
      }
  }

  lemma OneNumbers(n: Node)
    ensures NumbersOfAll([n]) == Numbers(n)
  {
    assert [n][1..] == [];
  }

  /** A compiled condition uses every number given out once, in order from left to right. */
  lemma {:induction false} CompileInOrder(c: Intent, s: Schema, ctx: Ctx, st: State)
    requires Compile(c, s, ctx, st).Ok?
    ensures InOrder(Compile(c, s, ctx, st), st)
    decreases Size(c), 1
  {
    match c
    case Comparison(field, op, operand) => ComparisonInOrder(field, op, operand, ctx, st);
    case NullCheck(field, isNull) => NothingInOrder(NullTest(ColumnOf(field, ctx), isNull), st);
    case Range(field, low, high) => RangeInOrder(field, low, high, ctx, st);
    case Membership(field, negated, values) => MembershipInOrder(field, negated, values, s, ctx, st);
    case And(cs) => CompileAllInOrder(cs, s, ctx, st); WrapInOrder(AndExpr, CompileAll(cs, s, ctx, st), st);
    case Or(cs) => CompileAllInOrder(cs, s, ctx, st); WrapInOrder(OrExpr, CompileAll(cs, s, ctx, st), st);
    case Negation(x) => CompileInOrder(x, s, ctx, st); NegatedInOrder(Compile(x, s, ctx, st), st);
    case Related(_, _, _) => RelationInOrder(c, s, ctx, st);
    case RelationFilter(_, _, _) => RelationInOrder(c, s, ctx, st);
    case Via(_, _, _) => ViaInOrder(c, s, ctx, st);
  }

  lemma WrapInOrder(op: BoolOp, r: Result<(seq<Node>, State), Error>, st: State)
    requires r.Ok? && AllInOrder(r.value.0, st, r.value.1)
    ensures InOrder(Wrap(op, r), st)
  {
    var nodes := r.value.0;
    if |nodes| == 1 {
      assert nodes == [nodes[0]];
      OneNumbers(nodes[0]);
    }
  }

  lemma NegatedInOrder(r: Compiled, st: State)
    requires r.Ok? && InOrder(r, st)
    ensures InOrder(Negated(true, r), st)
  {
    OneNumbers(r.value.0);
  }

  predicate AllInOrder(nodes: seq<Node>, a: State, b: State) {
    a.index <= b.index && NumbersOfAll(nodes) == After(a.index, b.index - a.index)
  }

  lemma ExtendsOrder(nodes: seq<Node>, node: Node, a: State, b: State, c: State)
    requires AllInOrder(nodes, a, b) && InOrder(Ok((node, c)), b)
    ensures AllInOrder(nodes + [node], a, c)
  {
    NumbersLast(nodes, node);
    AfterJoins(a.index, b.index - a.index, c.index - b.index);
  }

  lemma {:induction false} CompileAllInOrder(cs: seq<Intent>, s: Schema, ctx: Ctx, st: State)
    requires CompileAll(cs, s, ctx, st).Ok?
    ensures AllInOrder(CompileAll(cs, s, ctx, st).value.0, st, CompileAll(cs, s, ctx, st).value.1)
    decreases SizeAll(cs), 2, |cs|
  {
    if cs == [] {
      TwoNumbers(st.index);
    } else {
      var (nodes, st1) := CompileAll(cs[..|cs| - 1], s, ctx, st).value;
      var r := Compile(cs[|cs| - 1], s, ctx, st1);
      CompileAllInOrder(cs[..|cs| - 1], s, ctx, st);
      CompileInOrder(cs[|cs| - 1], s, ctx, st1);
      assert CompileAll(cs, s, ctx, st) == Ok((nodes + [r.value.0], r.value.1));
      ExtendsOrder(nodes, r.value.0, st, st1, r.value.1);
    }
  }

  lemma {:induction false} ViaInOrder(c: Intent, s: Schema, ctx: Ctx, st: State)
    requires c.Via? && Compile(c, s, ctx, st).Ok?
    ensures InOrder(Compile(c, s, ctx, st), st)
    decreases Size(c), 0
  {
    var alias := ExistsAlias(c.hop, ctx, st);
    ViaParts(c, s, ctx, st);
    ViaNumbers(c, s, ctx, st);
    CorrelationHasNoNumbers(ctx.alias, c.hop, alias);
    if c.where.None? {
      TwoNumbers(st.index);
    } else {
      assert Size(c) == 1 + SizeOpt(c.where) == 1 + Size(c.where.value);
      CompileInOrder(c.where.value, s, InnerCtx(c.hop, alias, ctx), WithAlias(st, alias));
      BothNumbers(KeyCorrelation(ctx.alias, c.hop.source, alias, c.hop.keys).value,
                  Compile(c.where.value, s, InnerCtx(c.hop, alias, ctx), WithAlias(st, alias)).value.0);
    }
  }

  lemma ViaNumbers(c: Intent, s: Schema, ctx: Ctx, st: State)
    requires c.Via? && Compile(c, s, ctx, st).Ok?
    ensures Numbers(Compile(c, s, ctx, st).value.0) == Numbers(ViaNode(c, s, ctx, st).condition)
  {
    NegatedNumbers(ViaNode(c, s, ctx, st), c.negated);
  }

  lemma NegatedNumbers(n: Node, negated: bool)
    requires n.Exists?
    ensures Numbers(if negated then BoolExpr(NotExpr, [n]) else n) == Numbers(n.condition)
  {
    OneNumbers(n);
  }

  lemma BothNumbers(a: Node, b: Node)
    requires Numbers(a) == []
    ensures Numbers(BoolExpr(AndExpr, [a, b])) == Numbers(b)
  {
    assert [a, b][1..] == [b];
    OneNumbers(b);
  }

  // --- compiling apart and renumbering ---------------------------------------------------------------

  /** The same state with other parameters before it, so numbering starts k later. */
  function Moved(st: State, k: nat, params: seq<Datum>): State { State(st.index + k, params, st.aliases) }

  predicate SameShifted(a: Compiled, b: Compiled, k: nat) {
    a.Ok? && b.Ok? && b.value.0 == Renumber(a.value.0, k) &&
    b.value.1.index == a.value.1.index + k && b.value.1.aliases == a.value.1.aliases
  }

  lemma {:induction false} RenumberLast(ns: seq<Node>, n: Node, k: nat)
    ensures RenumberAll(ns + [n], k) == RenumberAll(ns, k) + [Renumber(n, k)]
  {
    if ns == [] {
      assert ns + [n] == [n] && [n][1..] == [];
    } else {
      assert (ns + [n])[1..] == ns[1..] + [n];
      RenumberLast(ns[1..], n, k);
    }
  }

  lemma {:induction false} RenumberFixed(ns: seq<Node>, k: nat)
    requires forall n | n in ns :: Renumber(n, k) == n
    ensures RenumberAll(ns, k) == ns
  {
    if ns != [] { RenumberFixed(ns[1..], k); }
  }

  lemma {:induction false} ParamsShift(ns: seq<Node>, ms: seq<Node>, from: nat, k: nat)
    requires |ns| == |ms|
    requires forall i | 0 <= i < |ns| :: ns[i] == Param(from + 1 + i) && ms[i] == Param(from + k + 1 + i)
    ensures RenumberAll(ns, k) == ms
  {
    if ns != [] { ParamsShift(ns[1..], ms[1..], from + 1, k); }
  }

  lemma CorrelationIsFixed(a: string, hop: Hop, alias: string, k: nat)
    requires KeyCorrelation(a, hop.source, alias, hop.keys).Ok?
    ensures var n := KeyCorrelation(a, hop.source, alias, hop.keys).value; Renumber(n, k) == n
  {
    RenumberFixed(Equalities(a, hop.source, alias, hop.keys), k);
  }

  lemma ComparisonShifts(field: string, op: CompareOp, operand: Operand, ctx: Ctx, st: State, k: nat,
      params: seq<Datum>)
    requires CompileComparison(field, op, operand, ctx, Moved(st, k, params)).Ok?
    ensures SameShifted(CompileComparison(field, op, operand, ctx, st),
                        CompileComparison(field, op, operand, ctx, Moved(st, k, params)), k)
  {
    var left := ColumnOf(field, ctx);
    match operand
    case OuterField(column) => FixedComparison(op, left, Column([ctx.outer.value, column]), k);
    case Literal(Null) => FixedNullChecks(left, k);
    case Literal(d) => ValueShifts(op, left, d, st, k, params);
    case Marked(d) => ValueShifts(op, left, d, st, k, params);
  }

  lemma FixedComparison(op: CompareOp, left: Node, right: Node, k: nat)
    requires left.Column? && right.Column?
    ensures var n := CompareNode(op, if op == Neq then "!=" else OpText(op), left, right); Renumber(n, k) == n
  {
    assert Renumber(left, k) == left && Renumber(right, k) == right;
  }

  lemma FixedNullChecks(left: Node, k: nat)
    requires left.Column?
    ensures Renumber(NullTest(left, true), k) == NullTest(left, true)
    ensures Renumber(NullTest(left, false), k) == NullTest(left, false)
    ensures Renumber(DistinctFrom(left, NullConst), k) == DistinctFrom(left, NullConst)
  {
    assert Renumber(left, k) == left;
  }

  lemma ValueShifts(op: CompareOp, left: Node, d: Datum, st: State, k: nat, params: seq<Datum>)
    requires left.Column? && CompareWithValue(op, left, d, Moved(st, k, params)).Ok?
    ensures SameShifted(CompareWithValue(op, left, d, st), CompareWithValue(op, left, d, Moved(st, k, params)), k)
  {
    assert Renumber(left, k) == left;
  }

  lemma RangeShifts(field: string, low: Datum, high: Datum, ctx: Ctx, st: State, k: nat, params: seq<Datum>)
    requires CompileRange(field, low, high, ctx, Moved(st, k, params)).Ok?
    ensures SameShifted(CompileRange(field, low, high, ctx, st),
                        CompileRange(field, low, high, ctx, Moved(st, k, params)), k)
  {
    PushShifts(low, st, k, params);
    PushShifts(high, Push(st, low).value.1, k, params + [low]);
    BetweenShifts(ColumnOf(field, ctx), st.index, k);
  }

  lemma PushShifts(d: Datum, st: State, k: nat, params: seq<Datum>)
    requires Push(Moved(st, k, params), d).Ok?
    ensures Push(st, d) == Ok((Param(st.index + 1), State(st.index + 1, st.params + [d], st.aliases)))
    ensures Push(Moved(st, k, params), d)
            == Ok((Param(st.index + k + 1), Moved(Push(st, d).value.1, k, params + [d])))
  {
  }

  lemma BetweenShifts(left: Node, i: nat, k: nat)
    requires left.Column?
    ensures Renumber(Between(false, left, Param(i + 1), Param(i + 2)), k)
            == Between(false, left, Param(i + k + 1), Param(i + k + 2))
  {
    assert Renumber(left, k) == left;
  }

  lemma MembershipShifts(field: string, negated: bool, values: seq<Datum>, s: Schema, ctx: Ctx, st: State, k: nat,
      params: seq<Datum>)
    requires CompileMembership(field, negated, values, s, ctx, Moved(st, k, params)).Ok?
    ensures SameShifted(CompileMembership(field, negated, values, s, ctx, st),
                        CompileMembership(field, negated, values, s, ctx, Moved(st, k, params)), k)
  {
    var left := ColumnOf(field, ctx);
    if values != [] {
      if s.supportsArrays {
        ArrayShifts(left, if negated then "<>" else "=", negated, st.index, k);
      } else {
        ListShifts(left, negated, values, st, k, params);
      }
    }
  }

  lemma ArrayShifts(left: Node, op: string, all: bool, i: nat, k: nat)
    requires left.Column?
    ensures Renumber(Quantified(op, all, left, Param(i + 1)), k) == Quantified(op, all, left, Param(i + k + 1))
  {
    assert Renumber(left, k) == left;
  }

  lemma ListShifts(left: Node, negated: bool, values: seq<Datum>, st: State, k: nat, params: seq<Datum>)
    requires left.Column? && PushAll(Moved(st, k, params), values).Ok?
    ensures PushAll(st, values).Ok?
    ensures var (items, st1) := PushAll(st, values).value;
      var (moved, st2) := PushAll(Moved(st, k, params), values).value;
      SameShifted(Ok((InList(negated, left, items), st1)), Ok((InList(negated, left, moved), st2)), k)
  {
    PushesShift(values, st, k, params);
    ListRenumbered(left, negated, PushAll(st, values).value.0, k);
  }

  lemma ListRenumbered(left: Node, negated: bool, items: seq<Node>, k: nat)
    requires left.Column?
    ensures Renumber(InList(negated, left, items), k) == InList(negated, left, RenumberAll(items, k))
  {
    assert Renumber(left, k) == left;
  }

  lemma PushesShift(values: seq<Datum>, st: State, k: nat, params: seq<Datum>)
    requires PushAll(Moved(st, k, params), values).Ok?
    ensures PushAll(st, values).Ok?
    ensures var (items, st1) := PushAll(st, values).value;
      var (moved, st2) := PushAll(Moved(st, k, params), values).value;
      moved == RenumberAll(items, k) && st2.index == st1.index + k && st2.aliases == st1.aliases
  {
    PushAllRoom(st, values);
    PushAllRoom(Moved(st, k, params), values);
    PushAllBinds(st, values);
    PushAllBinds(Moved(st, k, params), values);
    ParamsShift(PushAll(st, values).value.0, PushAll(Moved(st, k, params), values).value.0, st.index, k);
  }

  lemma OneRenumbered(n: Node, k: nat)
    ensures RenumberAll([n], k) == [Renumber(n, k)]
  {
    assert [n][1..] == [];
  }

  predicate AllSameShifted(a: Result<(seq<Node>, State), Error>, b: Result<(seq<Node>, State), Error>, k: nat) {
    a.Ok? && b.Ok? && b.value.0 == RenumberAll(a.value.0, k) &&
    b.value.1.index == a.value.1.index + k && b.value.1.aliases == a.value.1.aliases
  }

  lemma WrapShifts(op: BoolOp, a: Result<(seq<Node>, State), Error>, b: Result<(seq<Node>, State), Error>, k: nat)
    requires AllSameShifted(a, b, k)
    ensures SameShifted(Wrap(op, a), Wrap(op, b), k)
  {
  }

  lemma NegatedShifts(a: Compiled, b: Compiled, k: nat)
    requires SameShifted(a, b, k)
    ensures SameShifted(Negated(true, a), Negated(true, b), k)
  {
    OneRenumbered(a.value.0, k);
  }

  /**
   A condition compiled after k other parameters is the condition compiled before them with its
   placeholders renumbered by k.
   */
  lemma {:induction false} CompileShifts(c: Intent, s: Schema, ctx: Ctx, st: State, k: nat, params: seq<Datum>)
    requires Compile(c, s, ctx, Moved(st, k, params)).Ok?
    ensures SameShifted(Compile(c, s, ctx, st), Compile(c, s, ctx, Moved(st, k, params)), k)
    decreases Size(c), 1
  {
    var to := Moved(st, k, params);
    match c
    case Comparison(field, op, operand) => ComparisonShifts(field, op, operand, ctx, st, k, params);
    case NullCheck(field, isNull) => FixedNullChecks(ColumnOf(field, ctx), k);
    case Range(field, low, high) => RangeShifts(field, low, high, ctx, st, k, params);
    case Membership(field, negated, values) => MembershipShifts(field, negated, values, s, ctx, st, k, params);
    case And(cs) =>
      CompileAllShifts(cs, s, ctx, st, k, params);
      WrapShifts(AndExpr, CompileAll(cs, s, ctx, st), CompileAll(cs, s, ctx, to), k);
    case Or(cs) =>
      CompileAllShifts(cs, s, ctx, st, k, params);
      WrapShifts(OrExpr, CompileAll(cs, s, ctx, st), CompileAll(cs, s, ctx, to), k);
    case Negation(x) =>
      CompileShifts(x, s, ctx, st, k, params);
      NegatedShifts(Compile(x, s, ctx, st), Compile(x, s, ctx, to), k);
    case Related(_, _, _) => RelationShifts(c, s, ctx, st, k, params);
    case RelationFilter(_, _, _) => RelationShifts(c, s, ctx, st, k, params);
    case Via(_, _, _) => ViaShifts(c, s, ctx, st, k, params);
  }

  lemma {:induction false} RelationShifts(c: Intent, s: Schema, ctx: Ctx, st: State, k: nat, params: seq<Datum>)
    requires (c.Related? || c.RelationFilter?) && Compile(c, s, ctx, Moved(st, k, params)).Ok?
    ensures SameShifted(Compile(c, s, ctx, st), Compile(c, s, ctx, Moved(st, k, params)), k)
    decreases Size(c), 0
  {
    match c
    case Related(relation, negated, where) =>
      CompileShifts(Via(HopOf(Resolve(s.model.value, ctx.rootTable, relation).value), negated, where),
                    s, ctx, st, k, params);
    case RelationFilter(path, mode, where) =>
      if !(mode == Every && Vacuous(where)) {
        FilterLowers(c, s, ctx, st);
        FilterLowers(c, s, ctx, Moved(st, k, params));
        CompileShifts(Nest(Hops(s, ctx.rootTable, path).value, mode != AtLeastOne, Innermost(mode, where)),
                      s, ctx, st, k, params);
      }
  }

  lemma {:induction false} CompileAllShifts(cs: seq<Intent>, s: Schema, ctx: Ctx, st: State, k: nat, params: seq<Datum>)
    requires CompileAll(cs, s, ctx, Moved(st, k, params)).Ok?
    ensures AllSameShifted(CompileAll(cs, s, ctx, st), CompileAll(cs, s, ctx, Moved(st, k, params)), k)
    decreases SizeAll(cs), 2, |cs|
  {
    if cs != [] {
      var front, last := cs[..|cs| - 1], cs[|cs| - 1];
      CompileAllShifts(front, s, ctx, st, k, params);
      var (nodes, st1) := CompileAll(front, s, ctx, st).value;
      var to1 := CompileAll(front, s, ctx, Moved(st, k, params)).value.1;
      assert to1 == Moved(st1, k, to1.params);
      CompileShifts(last, s, ctx, st1, k, to1.params);
      RenumberLast(nodes, Compile(last, s, ctx, st1).value.0, k);
    }
  }

  lemma {:induction false} ViaShifts(c: Intent, s: Schema, ctx: Ctx, st: State, k: nat, params: seq<Datum>)
    requires c.Via? && Compile(c, s, ctx, Moved(st, k, params)).Ok?
    ensures SameShifted(Compile(c, s, ctx, st), Compile(c, s, ctx, Moved(st, k, params)), k)
    decreases Size(c), 0
  {
    var to := Moved(st, k, params);
    var alias := ExistsAlias(c.hop, ctx, st);
    SameAlias(c.hop, ctx, st, k, params);
    MovedAccepts(c, s, ctx, st, k, params);
    ViaParts(c, s, ctx, to);
    ViaParts(c, s, ctx, st);
    var correlation := KeyCorrelation(ctx.alias, c.hop.source, alias, c.hop.keys).value;
    CorrelationIsFixed(ctx.alias, c.hop, alias, k);
    if c.where.Some? {
      var inner := InnerCtx(c.hop, alias, ctx);
      assert Size(c) == 1 + SizeOpt(c.where) == 1 + Size(c.where.value);
      CompileShifts(c.where.value, s, inner, WithAlias(st, alias), k, params);
      BothRenumbered(correlation, Compile(c.where.value, s, inner, WithAlias(st, alias)).value.0, k);
    }
    ViaNodeShifts(c, s, ctx, st, to, k);
  }

  lemma SameAlias(hop: Hop, ctx: Ctx, st: State, k: nat, params: seq<Datum>)
    ensures var alias := ExistsAlias(hop, ctx, st);
      alias == ExistsAlias(hop, ctx, Moved(st, k, params)) &&
      WithAlias(Moved(st, k, params), alias) == Moved(WithAlias(st, alias), k, params)
  {
    assert InUse(ctx, st) == InUse(ctx, Moved(st, k, params));
  }

  lemma MovedAccepts(c: Intent, s: Schema, ctx: Ctx, st: State, k: nat, params: seq<Datum>)
    requires Compile(c, s, ctx, Moved(st, k, params)).Ok?
    ensures Compile(c, s, ctx, st).Ok?
  {
    CompilesExactly(c, s, ctx, st);
    CompilesExactly(c, s, ctx, Moved(st, k, params));
  }

  lemma BothRenumbered(a: Node, b: Node, k: nat)
    ensures Renumber(BoolExpr(AndExpr, [a, b]), k) == BoolExpr(AndExpr, [Renumber(a, k), Renumber(b, k)])
  {
    assert [a, b][1..] == [b];
    OneRenumbered(b, k);
  }

  lemma ViaNodeShifts(c: Intent, s: Schema, ctx: Ctx, st: State, to: State, k: nat)
    requires c.Via? && Compile(c, s, ctx, to).Ok? && Compile(c, s, ctx, st).Ok?
    requires ExistsAlias(c.hop, ctx, st) == ExistsAlias(c.hop, ctx, to)
    requires ViaNode(c, s, ctx, to).condition == Renumber(ViaNode(c, s, ctx, st).condition, k)
    ensures Compile(c, s, ctx, to).value.0 == Renumber(Compile(c, s, ctx, st).value.0, k)
  {
    NegatedRenumbered(ViaNode(c, s, ctx, st), ViaNode(c, s, ctx, to), c.negated, k);
  }

  lemma NegatedRenumbered(a: Node, b: Node, negated: bool, k: nat)
    requires b == Renumber(a, k)
    ensures (if negated then BoolExpr(NotExpr, [b]) else b)
            == Renumber(if negated then BoolExpr(NotExpr, [a]) else a, k)
  {
    OneRenumbered(a, k);
  }
}
