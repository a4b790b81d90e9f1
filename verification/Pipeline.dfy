/** The whole WHERE pipeline: compile, print, parse and evaluate. */
module Pipeline {
  import opened Common
  import opened Ast
  import opened Semantics
  import opened Conditions
  import opened Acceptance
  import opened ConditionMeaning
  import opened Lexer
  import opened PrintedTokens
  import Aliases
  import CutNames
  import Decimal
  import Deparser
  import ExactPrinting
  import FlatMeaning
  import Names
  import Parser
  import RoundTrip

  // --- names the printer and PostgreSQL read alike -------------------------------------------------

  predicate LegibleField(field: string) {
    var i := LastDot(field);
    if i < 0 then Fits(field) else Legible(field[..i]) && i + 1 < |field| && Fits(field[i + 1..])
  }

  /** A table whose name leaves room for EXISTS aliases numbered up to n, with the columns that correlate it. */
  predicate LegibleHop(hop: Hop, n: nat) {
    !MisreadName(hop.target) && Aliases.Roomy(hop.target, n) &&
    (forall c | c in hop.source :: Fits(c)) && forall c | c in hop.keys :: Fits(c)
  }

  predicate LegibleCtx(ctx: Ctx) { Legible(ctx.alias) && (ctx.outer.Some? ==> Legible(ctx.outer.value)) }

  /** The names that a condition on a table mentions and those it meets on its paths. */
  predicate LegibleIntent(c: Intent, s: Schema, n: nat, table: string)
    decreases c, 0
  {
    match c
    case Comparison(field, _, operand) => LegibleField(field) && (operand.OuterField? ==> Fits(operand.column))
    case NullCheck(field, _) => LegibleField(field)
    case Range(field, _, _) => LegibleField(field)
    case Membership(field, _, _) => LegibleField(field)
    case And(cs) => forall x | x in cs :: LegibleIntent(x, s, n, table)
    case Or(cs) => forall x | x in cs :: LegibleIntent(x, s, n, table)
    case Negation(x) => LegibleIntent(x, s, n, table)
    case Related(relation, _, where) => LegiblePath(Hops(s, table, [relation]), where, s, n)
    case RelationFilter(path, _, where) => LegiblePath(Hops(s, table, path), where, s, n)
    case Via(hop, _, where) => LegibleHop(hop, n) && LegibleWhere(where, s, n, hop.target)
  }

  predicate LegiblePath(path: Option<seq<Hop>>, where: Option<Intent>, s: Schema, n: nat)
    decreases where, 2
  {
    path.Some? && path.value != [] ==>
      var hops := path.value;
      (forall h | h in hops :: LegibleHop(h, n)) && LegibleWhere(where, s, n, hops[|hops| - 1].target)
  }

  predicate LegibleWhere(where: Option<Intent>, s: Schema, n: nat, table: string)
    decreases where, 1
  {
    where.Some? ==> LegibleIntent(where.value, s, n, table)
  }

  // --- EXISTS aliases fit ------------------------------------------------------------------------------

  /** The EXISTS subqueries of a condition. */
  function Subqueries(c: Intent): nat
    decreases c, 1
  {
    match c
    case And(cs) => SubqueriesOfAll(cs)
    case Or(cs) => SubqueriesOfAll(cs)
    case Negation(x) => Subqueries(x)
    case Related(_, _, where) => 1 + SubqueriesOf(where)
    case RelationFilter(path, _, where) => |path| + SubqueriesOf(where)
    case Via(_, _, where) => 1 + SubqueriesOf(where)
    case _ => 0
  }

  function SubqueriesOf(where: Option<Intent>): nat
    decreases where, 2
  {
    if where.None? then 0 else Subqueries(where.value)
  }

  function SubqueriesOfAll(cs: seq<Intent>): nat
    decreases cs, 0
  {
    if cs == [] then 0 else SubqueriesOfAll(cs[..|cs| - 1]) + Subqueries(cs[|cs| - 1])
  }

  lemma {:induction false} NestSubqueries(hops: seq<Hop>, negated: bool, where: Option<Intent>)
    requires hops != []
    ensures Subqueries(Nest(hops, negated, where)) == |hops| + SubqueriesOf(where)
    decreases |hops|
  {
    if |hops| > 1 { NestSubqueries(hops[1..], false, where); }
  }

  lemma FilterSubqueries(c: Intent, s: Schema, table: string)
    requires c.RelationFilter? && Hops(s, table, c.path).Some?
    ensures var hops := Hops(s, table, c.path).value;
      hops != [] && Subqueries(Nest(hops, c.mode != AtLeastOne, Innermost(c.mode, c.where))) == Subqueries(c)
  {
    HopsNonEmpty(s, table, c.path);
    NestSubqueries(Hops(s, table, c.path).value, c.mode != AtLeastOne, Innermost(c.mode, c.where));
  }

  /** The names in use, the number the next alias starts from and what the condition's subqueries can add to both. */
  function Budget(c: Intent, ctx: Ctx, st: State): nat { 3 + |ctx.scope| + 3 * |st.aliases| + 5 * Subqueries(c) }

  lemma {:induction false} ValuesAreFew(m: map<string, string>)
    ensures |m.Values| <= |m|
    decreases |m|
  {
    if m != map[] {
      var k :| k in m;
      var rest := m - {k};
      ValuesAreFew(rest);
      assert m.Keys == rest.Keys + {k} && m.Values <= rest.Values + {m[k]};
      Names.Cardinality(m.Values, rest.Values + {m[k]});
    }
  }

  lemma InUseIsSmall(ctx: Ctx, st: State)
    ensures |InUse(ctx, st)| <= 3 + |ctx.scope| + 2 * |st.aliases|
  {
    var own := {ctx.alias, ctx.rootTable};
    var outer := if ctx.outer.Some? then {ctx.outer.value} else {};
    ValuesAreFew(st.aliases);
    Names.Cardinality(own, {ctx.alias} + {ctx.rootTable});
    Aliases.SizeOfUnion({ctx.alias}, {ctx.rootTable});
    Aliases.SizeOfUnion(own, outer);
    Aliases.SizeOfUnion(own + outer, ctx.scope);
    Aliases.SizeOfUnion(own + outer + ctx.scope, st.aliases.Keys);
    Aliases.SizeOfUnion(own + outer + ctx.scope + st.aliases.Keys, st.aliases.Values);
  }

  lemma AliasIsLegible(hop: Hop, ctx: Ctx, st: State, n: nat)
    requires Aliases.Roomy(hop.target, n) && 3 + |ctx.scope| + 3 * |st.aliases| <= n
    ensures Legible(ExistsAlias(hop, ctx, st))
  {
    var i := Aliases.ExistsNumber(hop.target, InUse(ctx, st), |st.aliases|);
    InUseIsSmall(ctx, st);
    Decimal.PrintGrows(i, n);
    Aliases.CandidateBytes(hop.target, i);
    EndsInDigit(hop.target, i);
  }

  lemma EndsInDigit(table: string, i: nat)
    ensures var alias := Aliases.ExistsCandidate(table, i); alias != [] && !MisreadName(alias)
  {
    var alias, digits := Aliases.ExistsCandidate(table, i), Decimal.Print(i);
    assert alias[|alias| - 1] == digits[|digits| - 1];
    assert Decimal.IsDigit(digits[|digits| - 1]);
  }

  /** Compiling allocates at most one alias for each subquery. */
  lemma {:induction false} AliasesGrow(c: Intent, s: Schema, ctx: Ctx, st: State)
    requires Compile(c, s, ctx, st).Ok?
    ensures |Compile(c, s, ctx, st).value.1.aliases| <= |st.aliases| + Subqueries(c)
    decreases Size(c), 1
  {
    match c
    case Comparison(_, _, _) =>
    case NullCheck(_, _) =>
    case Range(_, _, _) =>
    case Membership(_, _, values) => if values != [] && !s.supportsArrays { PushAllKeepsAliases(st, values); }
    case And(cs) => AliasesOfAllGrow(cs, s, ctx, st);
    case Or(cs) => AliasesOfAllGrow(cs, s, ctx, st);
    case Negation(x) => AliasesGrow(x, s, ctx, st);
    case Related(relation, negated, where) =>
      AliasesGrow(Via(HopOf(Resolve(s.model.value, ctx.rootTable, relation).value), negated, where), s, ctx, st);
    case RelationFilter(_, _, _) => FilterAliasesGrow(c, s, ctx, st);
    case Via(_, _, _) => ViaAliasesGrow(c, s, ctx, st);
  }

  lemma {:induction false} FilterAliasesGrow(c: Intent, s: Schema, ctx: Ctx, st: State)
    requires c.RelationFilter? && Compile(c, s, ctx, st).Ok?
    ensures |Compile(c, s, ctx, st).value.1.aliases| <= |st.aliases| + Subqueries(c)
    decreases Size(c), 0
  {
    if !(c.mode == Every && Vacuous(c.where)) {
      FilterLowers(c, s, ctx, st);
      FilterSubqueries(c, s, ctx.rootTable);
      AliasesGrow(Nest(Hops(s, ctx.rootTable, c.path).value, c.mode != AtLeastOne, Innermost(c.mode, c.where)),
                  s, ctx, st);
    }
  }

  lemma {:induction false} ViaAliasesGrow(c: Intent, s: Schema, ctx: Ctx, st: State)
    requires c.Via? && Compile(c, s, ctx, st).Ok?
    ensures |Compile(c, s, ctx, st).value.1.aliases| <= |st.aliases| + Subqueries(c)
    decreases Size(c), 0
  {
    var alias := ExistsAlias(c.hop, ctx, st);
    AliasAdds(st, alias);
    if c.where.Some? {
      assert Size(c) == 1 + SizeOpt(c.where) == 1 + Size(c.where.value);
      assert Subqueries(c) == 1 + SubqueriesOf(c.where) == 1 + Subqueries(c.where.value);
      AliasesGrow(c.where.value, s, InnerCtx(c.hop, alias, ctx), WithAlias(st, alias));
    }
  }

  lemma AliasAdds(st: State, alias: string)
    ensures |WithAlias(st, alias).aliases| <= |st.aliases| + 1
  {
    assert st.aliases[alias := alias].Keys == st.aliases.Keys + {alias};
  }

  lemma {:induction false} PushAllKeepsAliases(st: State, ds: seq<Datum>)
    requires PushAll(st, ds).Ok?
    ensures PushAll(st, ds).value.1.aliases == st.aliases
  {
    if ds != [] { PushAllKeepsAliases(st, ds[..|ds| - 1]); }
  }

  lemma {:induction false} AliasesOfAllGrow(cs: seq<Intent>, s: Schema, ctx: Ctx, st: State)
    requires CompileAll(cs, s, ctx, st).Ok?
    ensures |CompileAll(cs, s, ctx, st).value.1.aliases| <= |st.aliases| + SubqueriesOfAll(cs)
    decreases SizeAll(cs), 2, |cs|
  {
    if cs != [] {
      AliasesOfAllGrow(cs[..|cs| - 1], s, ctx, st);
      AliasesGrow(cs[|cs| - 1], s, ctx, CompileAll(cs[..|cs| - 1], s, ctx, st).value.1);
    }
  }

  // --- compiled conditions are printable -----------------------------------------------------------

  /** Printable, and every operand is a value. */
  predicate Faithful(n: Node) { Printable(n) && FlatMeaning.Valued(n) }

  lemma ColumnIsPrintable(field: string, ctx: Ctx)
    requires field != [] && LegibleField(field) && LegibleCtx(ctx)
    ensures Faithful(ColumnOf(field, ctx)) && Level(ColumnOf(field, ctx)) == PRIMARY
  {
    var i := LastDot(field);
    if i >= 0 {
      assert ColumnOf(field, ctx).fields == [field[..i], field[i + 1..]];
    }
  }

  lemma CorrelationIsPrintable(a: string, hop: Hop, alias: string, n: nat)
    requires Legible(a) && Legible(alias) && LegibleHop(hop, n)
    requires KeyCorrelation(a, hop.source, alias, hop.keys).Ok?
    ensures Faithful(KeyCorrelation(a, hop.source, alias, hop.keys).value)
  {
    var eqs := Equalities(a, hop.source, alias, hop.keys);
    forall i | 0 <= i < |eqs| ensures Faithful(eqs[i]) {
      assert hop.source[i] in hop.source && hop.keys[i] in hop.keys;
      EqualityIsPrintable(a, hop.source[i], alias, hop.keys[i]);
    }
    if |eqs| > 1 { ListOfFaithful(AndExpr, eqs); }
  }

  lemma EqualityIsPrintable(a: string, x: string, alias: string, y: string)
    requires Legible(a) && Legible(alias) && x != [] && y != [] && Fits(x) && Fits(y)
    ensures Faithful(Binary("=", Column([a, x]), Column([alias, y])))
  {
    assert Printable(Column([a, x])) && Printable(Column([alias, y]));
    assert IsOperator("=");
  }

  lemma CompareNodeIsPrintable(op: CompareOp, text: string, left: Node, right: Node)
    requires Faithful(left) && Faithful(right) && Level(left) == Level(right) == PRIMARY && IsComparison(text)
    requires !Lone(left) && !Lone(right)
    ensures Faithful(CompareNode(op, text, left, right))
  {
    OperatorsArePrintable();
  }

  lemma ComparisonIsPrintable(c: Intent, s: Schema, n: nat, ctx: Ctx, st: State)
    requires c.Comparison? && LegibleIntent(c, s, n, ctx.rootTable) && LegibleCtx(ctx) && Compile(c, s, ctx, st).Ok?
    ensures Faithful(Compile(c, s, ctx, st).value.0)
  {
    var left := ColumnOf(c.field, ctx);
    ColumnIsPrintable(c.field, ctx);
    match c.operand
    case OuterField(column) =>
      var right := Column([ctx.outer.value, column]);
      assert Faithful(right);
      CompareNodeIsPrintable(c.op, if c.op == Neq then "!=" else OpText(c.op), left, right);
    case _ =>
      if c.operand == Operand.Literal(Null) {
        NullChecksArePrintable(left);
      } else {
        CompareNodeIsPrintable(c.op, OpText(c.op), left, Param(st.index + 1));
      }
  }

  lemma NullChecksArePrintable(left: Node)
    requires Faithful(left) && Level(left) == PRIMARY && !Lone(left)
    ensures forall b :: Faithful(NullTest(left, b))
    ensures Faithful(DistinctFrom(left, NullConst))
  {
  }

  lemma OperatorsArePrintable()
    ensures IsOperator("=") && IsOperator("<>") && IsOperator("!=")
    ensures IsOperator("<") && IsOperator("<=") && IsOperator(">") && IsOperator(">=")
  {
  }

  lemma MembershipIsPrintable(c: Intent, s: Schema, n: nat, ctx: Ctx, st: State)
    requires c.Membership? && LegibleIntent(c, s, n, ctx.rootTable) && LegibleCtx(ctx) && Compile(c, s, ctx, st).Ok?
    ensures Faithful(Compile(c, s, ctx, st).value.0)
  {
    var left := ColumnOf(c.field, ctx);
    ColumnIsPrintable(c.field, ctx);
    if c.values != [] {
      if s.supportsArrays {
        QuantifiedIsPrintable(left, c.negated, Param(st.index + 1));
      } else {
        PushAllBinds(st, c.values);
        InListIsPrintable(left, c.negated, PushAll(st, c.values).value.0);
      }
    }
  }

  lemma QuantifiedIsPrintable(left: Node, negated: bool, list: Node)
    requires Faithful(left) && Level(left) == PRIMARY && !Lone(left) && list.Param?
    ensures Faithful(Quantified(if negated then "<>" else "=", negated, left, list))
  {
  }

  lemma InListIsPrintable(left: Node, negated: bool, items: seq<Node>)
    requires Faithful(left) && Level(left) == PRIMARY && !Lone(left)
    requires items != [] && forall i | i in items :: i.Param?
    ensures Faithful(InList(negated, left, items))
  {
  }

  lemma RangeIsPrintable(c: Intent, s: Schema, n: nat, ctx: Ctx, st: State)
    requires c.Range? && LegibleIntent(c, s, n, ctx.rootTable) && LegibleCtx(ctx) && Compile(c, s, ctx, st).Ok?
    ensures Faithful(Compile(c, s, ctx, st).value.0)
  {
    ColumnIsPrintable(c.field, ctx);
  }

  lemma NotIsPrintable(x: Node)
    requires Faithful(x)
    ensures Faithful(BoolExpr(NotExpr, [x]))
  {
  }

  /** Whatever compiles from legible names is in the printer's domain. */
  lemma {:induction false} CompileIsPrintable(c: Intent, s: Schema, n: nat, ctx: Ctx, st: State)
    requires LegibleCtx(ctx) && LegibleIntent(c, s, n, ctx.rootTable) && Budget(c, ctx, st) <= n
    requires Compile(c, s, ctx, st).Ok?
    ensures Faithful(Compile(c, s, ctx, st).value.0)
    decreases Size(c), 1
  {
    match c
    case Comparison(_, _, _) => ComparisonIsPrintable(c, s, n, ctx, st);
    case NullCheck(field, _) =>
      ColumnIsPrintable(field, ctx);
      NullChecksArePrintable(ColumnOf(field, ctx));
    case Range(_, _, _) => RangeIsPrintable(c, s, n, ctx, st);
    case Membership(_, _, _) => MembershipIsPrintable(c, s, n, ctx, st);
    case And(cs) => ListIsPrintable(c, cs, s, n, ctx, st);
    case Or(cs) => ListIsPrintable(c, cs, s, n, ctx, st);
    case Negation(x) =>
      CompileIsPrintable(x, s, n, ctx, st);
      NotIsPrintable(Compile(x, s, ctx, st).value.0);
    case Related(_, _, _) => RelationIsPrintable(c, s, n, ctx, st);
    case RelationFilter(_, _, _) => RelationIsPrintable(c, s, n, ctx, st);
    case Via(_, _, _) => ViaIsPrintable(c, s, n, ctx, st);
  }

  lemma {:induction false} ListIsPrintable(c: Intent, cs: seq<Intent>, s: Schema, n: nat, ctx: Ctx, st: State)
    requires c == And(cs) || c == Or(cs)
    requires LegibleCtx(ctx) && LegibleIntent(c, s, n, ctx.rootTable) && Budget(c, ctx, st) <= n
    requires Compile(c, s, ctx, st).Ok?
    ensures Faithful(Compile(c, s, ctx, st).value.0)
    decreases Size(c), 0
  {
    CompileAllIsPrintable(cs, s, n, ctx, st);
    var nodes := CompileAll(cs, s, ctx, st).value.0;
    ListOfFaithful(if c.And? then AndExpr else OrExpr, nodes);
  }

  lemma ListOfFaithful(op: BoolOp, nodes: seq<Node>)
    requires op != NotExpr && nodes != [] ==> forall x | x in nodes :: Faithful(x)
    ensures op != NotExpr && nodes != [] ==> Faithful(BoolExpr(op, nodes)) && Faithful(nodes[0])
  {
  }

  lemma {:induction false} CompileAllIsPrintable(cs: seq<Intent>, s: Schema, n: nat, ctx: Ctx, st: State)
    requires LegibleCtx(ctx) && forall c | c in cs :: LegibleIntent(c, s, n, ctx.rootTable)
    requires 3 + |ctx.scope| + 3 * |st.aliases| + 5 * SubqueriesOfAll(cs) <= n
    requires CompileAll(cs, s, ctx, st).Ok?
    ensures forall x | x in CompileAll(cs, s, ctx, st).value.0 :: Faithful(x)
    decreases SizeAll(cs), 2, |cs|
  {
    if cs != [] {
      CompileAllIsPrintable(cs[..|cs| - 1], s, n, ctx, st);
      AliasesOfAllGrow(cs[..|cs| - 1], s, ctx, st);
      CompileIsPrintable(cs[|cs| - 1], s, n, ctx, CompileAll(cs[..|cs| - 1], s, ctx, st).value.1);
    }
  }

  lemma {:induction false} RelationIsPrintable(c: Intent, s: Schema, n: nat, ctx: Ctx, st: State)
    requires c.Related? || c.RelationFilter?
    requires LegibleCtx(ctx) && LegibleIntent(c, s, n, ctx.rootTable) && Budget(c, ctx, st) <= n
    requires Compile(c, s, ctx, st).Ok?
    ensures Faithful(Compile(c, s, ctx, st).value.0)
    decreases Size(c), 0
  {
    match c
    case Related(relation, negated, where) =>
      var hop := HopOf(Resolve(s.model.value, ctx.rootTable, relation).value);
      OneHop(s, ctx.rootTable, relation);
      assert hop in [hop];
      CompileIsPrintable(Via(hop, negated, where), s, n, ctx, st);
    case RelationFilter(path, mode, where) =>
      if !(mode == Every && Vacuous(where)) {
        FilterLowers(c, s, ctx, st);
        FilterSubqueries(c, s, ctx.rootTable);
        FilterIsLegible(c, s, n, ctx);
        CompileIsPrintable(Nest(Hops(s, ctx.rootTable, path).value, mode != AtLeastOne, Innermost(mode, where)),
                           s, n, ctx, st);
      }
  }

  lemma OneHop(s: Schema, table: string, relation: string)
    requires s.model.Some? && Resolve(s.model.value, table, relation).Some?
    ensures Hops(s, table, [relation]) == Some([HopOf(Resolve(s.model.value, table, relation).value)])
  {
    var hop := HopOf(Resolve(s.model.value, table, relation).value);
    assert [relation][1..] == [] && ResolvePath(s.model.value, hop.target, []) == Some([]);
    assert [hop] + [] == [hop];
  }

  lemma {:induction false} NestIsLegible(hops: seq<Hop>, negated: bool, where: Option<Intent>, s: Schema, n: nat,
      table: string)
    requires hops != [] && (forall h | h in hops :: LegibleHop(h, n))
    requires LegibleWhere(where, s, n, hops[|hops| - 1].target)
    ensures LegibleIntent(Nest(hops, negated, where), s, n, table)
    decreases |hops|
  {
    if |hops| > 1 { NestIsLegible(hops[1..], false, where, s, n, hops[0].target); }
  }

  lemma InnermostIsLegible(mode: Mode, where: Option<Intent>, s: Schema, n: nat, table: string)
    requires LegibleWhere(where, s, n, table)
    ensures LegibleWhere(Innermost(mode, where), s, n, table)
  {
    if where.Some? { assert LegibleIntent(Negation(where.value), s, n, table); }
  }

  lemma FilterIsLegible(c: Intent, s: Schema, n: nat, ctx: Ctx)
    requires c.RelationFilter? && LegibleIntent(c, s, n, ctx.rootTable)
    requires Hops(s, ctx.rootTable, c.path).Some?
    ensures var hops := Hops(s, ctx.rootTable, c.path).value;
      hops != [] && LegibleIntent(Nest(hops, c.mode != AtLeastOne, Innermost(c.mode, c.where)), s, n, ctx.rootTable)
  {
    HopsNonEmpty(s, ctx.rootTable, c.path);
    InnermostIsLegible(c.mode, c.where, s, n, Hops(s, ctx.rootTable, c.path).value[|c.path| - 1].target);
    NestIsLegible(Hops(s, ctx.rootTable, c.path).value, c.mode != AtLeastOne, Innermost(c.mode, c.where), s, n,
                  ctx.rootTable);
  }

  lemma {:induction false} ViaIsPrintable(c: Intent, s: Schema, n: nat, ctx: Ctx, st: State)
    requires c.Via? && LegibleCtx(ctx) && LegibleIntent(c, s, n, ctx.rootTable)
    requires Budget(c, ctx, st) <= n && Compile(c, s, ctx, st).Ok?
    ensures Faithful(Compile(c, s, ctx, st).value.0)
    decreases Size(c), 0
  {
    var alias := ExistsAlias(c.hop, ctx, st);
    ViaParts(c, s, ctx, st);
    CorrelationOfHopIsPrintable(c.hop, n, ctx, st);
    if c.where.Some? {
      assert Size(c) == 1 + SizeOpt(c.where) == 1 + Size(c.where.value);
      InnerBudget(c, ctx, st);
      CompileIsPrintable(c.where.value, s, n, InnerCtx(c.hop, alias, ctx), WithAlias(st, alias));
      BothArePrintable(KeyCorrelation(ctx.alias, c.hop.source, alias, c.hop.keys).value,
                       Compile(c.where.value, s, InnerCtx(c.hop, alias, ctx), WithAlias(st, alias)).value.0);
    }
    ViaNodeIsPrintable(c, s, n, ctx, st);
  }

  lemma InnerBudget(c: Intent, ctx: Ctx, st: State)
    requires c.Via? && c.where.Some?
    ensures var alias := ExistsAlias(c.hop, ctx, st);
      Budget(c.where.value, InnerCtx(c.hop, alias, ctx), WithAlias(st, alias)) <= Budget(c, ctx, st)
  {
    var alias := ExistsAlias(c.hop, ctx, st);
    assert Subqueries(c) == 1 + SubqueriesOf(c.where) == 1 + Subqueries(c.where.value);
    AliasAdds(st, alias);
    TwoMoreNames(ctx.scope, ctx.alias, alias);
  }

  lemma TwoMoreNames(scope: set<string>, a: string, b: string)
    ensures |scope + {a, b}| <= |scope| + 2
  {
    Aliases.SizeOfUnion(scope, {a});
    Aliases.SizeOfUnion(scope + {a}, {b});
    assert scope + {a, b} == scope + {a} + {b};
  }

  lemma BothArePrintable(a: Node, b: Node)
    requires Faithful(a) && Faithful(b)
    ensures Faithful(BoolExpr(AndExpr, [a, b]))
  {
  }

  lemma CorrelationOfHopIsPrintable(hop: Hop, n: nat, ctx: Ctx, st: State)
    requires LegibleCtx(ctx) && LegibleHop(hop, n) && 3 + |ctx.scope| + 3 * |st.aliases| <= n
    requires KeyCorrelation(ctx.alias, hop.source, ExistsAlias(hop, ctx, st), hop.keys).Ok?
    ensures LegibleCtx(InnerCtx(hop, ExistsAlias(hop, ctx, st), ctx))
    ensures Faithful(KeyCorrelation(ctx.alias, hop.source, ExistsAlias(hop, ctx, st), hop.keys).value)
  {
    AliasIsLegible(hop, ctx, st, n);
    CorrelationIsPrintable(ctx.alias, hop, ExistsAlias(hop, ctx, st), n);
  }

  lemma RoomyFits(table: string, n: nat)
    requires Aliases.Roomy(table, n)
    ensures Fits(table)
  {
  }

  lemma ViaNodeIsPrintable(c: Intent, s: Schema, n: nat, ctx: Ctx, st: State)
    requires c.Via? && Compile(c, s, ctx, st).Ok? && LegibleHop(c.hop, n) && Budget(c, ctx, st) <= n
    requires Faithful(ViaNode(c, s, ctx, st).condition)
    ensures Faithful(Compile(c, s, ctx, st).value.0)
  {
    var node := ViaNode(c, s, ctx, st);
    AliasIsLegible(c.hop, ctx, st, n);
    RoomyFits(c.hop.target, n);
    TargetIsNamed(c, s, ctx, st);
    QueryIsPrintable(node.table, node.alias, node.condition);
    NotIsPrintable(node);
  }

  lemma TargetIsNamed(c: Intent, s: Schema, ctx: Ctx, st: State)
    requires c.Via? && Compile(c, s, ctx, st).Ok?
    ensures c.hop.target != []
  {
  }

  lemma QueryIsPrintable(table: string, alias: string, condition: Node)
    requires Legible(table) && Legible(alias) && Faithful(condition)
    ensures Faithful(Exists(table, alias, condition))
  {
  }

  // --- the pipeline --------------------------------------------------------------------------------

  /**
   Whatever condition compiles, from whatever parameter state, its printed SQL parses, and what
   PostgreSQL reads, names cut to 63 bytes, evaluates under the final parameter array to the
   condition's meaning. The tables on the condition's paths must leave room for the EXISTS aliases: n bounds
   their numbers.
   */
  lemma PipelinePreservesMeaning(c: Intent, s: Schema, n: nat, ctx: Ctx, st: State, sc: Scope, env: Env,
                                 final: seq<Datum>, w: World)
    requires Coherent(w) && Visible(ctx, sc, env) && Resolved(Fields(c), sc)
    requires LegibleCtx(ctx) && LegibleIntent(c, s, n, ctx.rootTable) && Budget(c, ctx, st) <= n
    requires var r := CompileCondition(c, s, ctx, st); r.Ok? && Carries(final, st, r.value.1)
    ensures ReadsAsMeant(CompileCondition(c, s, ctx, st).value.0, env, final, w, Meaning(c, s, w, sc))
  {
    var node := Compile(c, s, ctx, st).value.0;
    CompileMeans(c, s, ctx, st, sc, env, final, w);
    CompileIsPrintable(c, s, n, ctx, st);
    FaithfulReads(node, env, final, w);
  }

  /** The printed text parses, and what is read has this meaning. */
  ghost predicate ReadsAsMeant(node: Node, env: Env, final: seq<Datum>, w: World, meaning: Truth) {
    var read := Parser.Parse(Deparser.Deparse(node));
    read.Some? && Holds(read.value, env, final, w) == meaning
  }

  lemma FaithfulReads(node: Node, env: Env, final: seq<Datum>, w: World)
    requires Faithful(node)
    ensures ReadsAsMeant(node, env, final, w, Holds(node, env, final, w))
  {
    RoundTrip.PrintableIsWellSorted(node);
    ExactPrinting.ParseDeparse(node);
    FlatMeaning.FlatMeans(node, env, final, w);
  }
}
