/** Compiled conditions mean what the intents mean, under the parameters bound on the way. */
module ConditionMeaning {
  import opened Common
  import opened Ast
  import opened Semantics
  import opened Conditions
  import Aliases

  // --- the parameter state only grows ----------------------------------------------------------

  /** From a to b values were appended, one for each number given out. */
  predicate Grows(a: State, b: State) {
    a.params <= b.params && b.index - a.index == |b.params| - |a.params|
  }

  lemma {:induction false} PushAllBinds(st: State, ds: seq<Datum>)
    requires PushAll(st, ds).Ok?
    ensures var (nodes, st1) := PushAll(st, ds).value;
      && st1 == st.(index := st.index + |ds|, params := st.params + ds)
      && |nodes| == |ds|
      && forall i | 0 <= i < |nodes| :: nodes[i] == Param(st.index + 1 + i)
  {
    if ds == [] {
      assert st.params + ds == st.params;
    } else {
      PushAllBinds(st, ds[..|ds| - 1]);
      assert st.params + ds[..|ds| - 1] + [ds[|ds| - 1]] == st.params + ds;
    }
  }

  lemma AtomGrows(c: Intent, s: Schema, ctx: Ctx, st: State)
    requires c.Comparison? || c.NullCheck? || c.Range? || c.Membership?
    requires Compile(c, s, ctx, st).Ok?
    ensures Grows(st, Compile(c, s, ctx, st).value.1)
  {
    if c.Membership? && c.values != [] && !s.supportsArrays { PushAllBinds(st, c.values); }
  }

  lemma {:induction false} CompileGrows(c: Intent, s: Schema, ctx: Ctx, st: State)
    requires Compile(c, s, ctx, st).Ok?
    ensures Grows(st, Compile(c, s, ctx, st).value.1)
    decreases Size(c), 1
  {
    match c
    case Comparison(_, _, _) => AtomGrows(c, s, ctx, st);
    case NullCheck(_, _) => AtomGrows(c, s, ctx, st);
    case Range(_, _, _) => AtomGrows(c, s, ctx, st);
    case Membership(_, _, _) => AtomGrows(c, s, ctx, st);
    case And(cs) => CompileAllGrows(cs, s, ctx, st);
    case Or(cs) => CompileAllGrows(cs, s, ctx, st);
    case Negation(x) => CompileGrows(x, s, ctx, st);
    case Related(_, _, _) => RelationGrows(c, s, ctx, st);
    case RelationFilter(_, _, _) => RelationGrows(c, s, ctx, st);
    case Via(_, _, _) => ViaGrows(c, s, ctx, st);
  }

  lemma {:induction false} ViaGrows(c: Intent, s: Schema, ctx: Ctx, st: State)
    requires c.Via? && Compile(c, s, ctx, st).Ok?
    ensures Grows(st, Compile(c, s, ctx, st).value.1)
    decreases Size(c), 0
  {
    if c.where.Some? {
      var alias := ExistsAlias(c.hop, ctx, st);
      assert Size(c) == 1 + SizeOpt(c.where) == 1 + Size(c.where.value);
      CompileGrows(c.where.value, s, InnerCtx(c.hop, alias, ctx), WithAlias(st, alias));
    }
  }

  lemma {:induction false} RelationGrows(c: Intent, s: Schema, ctx: Ctx, st: State)
    requires (c.Related? || c.RelationFilter?) && Compile(c, s, ctx, st).Ok?
    ensures Grows(st, Compile(c, s, ctx, st).value.1)
    decreases Size(c), 0
  {
    match c
    case Related(relation, negated, where) =>
      CompileGrows(Via(HopOf(Resolve(s.model.value, ctx.rootTable, relation).value), negated, where), s, ctx, st);
    case RelationFilter(path, mode, where) =>
      if !(mode == Every && Vacuous(where)) {
        HopsNonEmpty(s, ctx.rootTable, path);
        CompileGrows(Nest(Hops(s, ctx.rootTable, path).value, mode != AtLeastOne, Innermost(mode, where)), s, ctx, st);
      }
  }

  lemma {:induction false} CompileAllGrows(cs: seq<Intent>, s: Schema, ctx: Ctx, st: State)
    requires CompileAll(cs, s, ctx, st).Ok?
    ensures Grows(st, CompileAll(cs, s, ctx, st).value.1)
    ensures |CompileAll(cs, s, ctx, st).value.0| == |cs|
    decreases SizeAll(cs), 2, |cs|
  {
    if cs != [] {
      CompileAllGrows(cs[..|cs| - 1], s, ctx, st);
      CompileGrows(cs[|cs| - 1], s, ctx, CompileAll(cs[..|cs| - 1], s, ctx, st).value.1);
    }
  }

  // --- parameter arrays ------------------------------------------------------------------------

  /** The final array holds, at the numbers given out from a to b, the values appended from a to b. */
  predicate Carries(final: seq<Datum>, a: State, b: State) {
    Grows(a, b) && b.index <= |final| && final[a.index..b.index] == b.params[|a.params|..]
  }

  lemma CarriesParts(final: seq<Datum>, a: State, b: State, c: State)
    requires Carries(final, a, c) && Grows(a, b) && Grows(b, c)
    ensures Carries(final, a, b) && Carries(final, b, c)
  {
    var n := b.index - a.index;
    assert final[a.index..b.index] == final[a.index..c.index][..n];
    assert final[b.index..c.index] == final[a.index..c.index][n..];
    assert c.params[|a.params|..][..n] == b.params[|a.params|..];
    assert c.params[|a.params|..][n..] == c.params[|b.params|..];
  }

  lemma CarriesOne(final: seq<Datum>, st: State, d: Datum)
    requires Push(st, d).Ok? && Carries(final, st, Push(st, d).value.1)
    ensures final[st.index] == d
  {
    var st1 := Push(st, d).value.1;
    assert final[st.index..st1.index][0] == st1.params[|st.params|..][0];
  }

  // --- scopes ------------------------------------------------------------------------------------

  /** Every range the condition can name is visible to the SQL under the qualifier compiled for it. */
  predicate Visible(ctx: Ctx, sc: Scope, env: Env) {
    && sc.table == ctx.rootTable
    && ctx.alias in env && env[ctx.alias] == sc.row
    && ctx.outer.Some? == sc.outer.Some?
    && (ctx.outer.Some? ==> ctx.outer.value in env && env[ctx.outer.value] == sc.outer.value)
    && (forall q | q in sc.named :: q in env && env[q] == sc.named[q])
    && env.Keys <= ctx.scope + {ctx.alias}
  }

  /** The fields a condition mentions. */
  function Fields(c: Intent): set<string>
    decreases c, 1
  {
    match c
    case Comparison(field, _, _) => {field}
    case NullCheck(field, _) => {field}
    case Range(field, _, _) => {field}
    case Membership(field, _, _) => {field}
    case And(cs) => FieldsOfAll(cs)
    case Or(cs) => FieldsOfAll(cs)
    case Negation(x) => Fields(x)
    case Related(_, _, where) => FieldsOf(where)
    case RelationFilter(_, _, where) => FieldsOf(where)
    case Via(_, _, where) => FieldsOf(where)
  }

  function FieldsOf(where: Option<Intent>): set<string>
    decreases where, 2
  {
    if where.None? then {} else Fields(where.value)
  }

  function FieldsOfAll(cs: seq<Intent>): set<string>
    decreases cs, 0
  {
    if cs == [] then {} else FieldsOfAll(cs[..|cs| - 1]) + Fields(cs[|cs| - 1])
  }

  /** A qualified field names a range of the surrounding query. */
  predicate Resolved(fields: set<string>, sc: Scope) {
    forall f | f in fields :: LastDot(f) >= 0 ==> f[..LastDot(f)] in sc.named
  }

  lemma ColumnMeans(field: string, ctx: Ctx, sc: Scope, env: Env, params: seq<Datum>, w: World)
    requires Visible(ctx, sc, env) && Resolved({field}, sc)
    ensures Eval(ColumnOf(field, ctx), env, params, w) == FieldValue(field, sc)
  {
    var i := LastDot(field);
    if i < 0 {
      TwoPartColumn(ctx.alias, field, env, params, w);
    } else {
      assert field in {field};
      TwoPartColumn(field[..i], field[i + 1..], env, params, w);
    }
  }

  lemma TwoPartColumn(q: string, column: string, env: Env, params: seq<Datum>, w: World)
    requires q in env
    ensures Eval(Column([q, column]), env, params, w) == Cell(env[q], column)
  {
  }

  /** A new alias hides no range that is in scope. */
  lemma InnerIsVisible(hop: Hop, ctx: Ctx, st: State, sc: Scope, env: Env, row: Row)
    requires Visible(ctx, sc, env)
    ensures var alias := ExistsAlias(hop, ctx, st);
      alias !in env &&
      Visible(InnerCtx(hop, alias, ctx), Scope(hop.target, row, Some(sc.row), sc.named), env[alias := row])
  {
    var alias := ExistsAlias(hop, ctx, st);
    AliasIsNew(hop, ctx, st);
    assert alias !in env;
  }

  lemma AliasIsNew(hop: Hop, ctx: Ctx, st: State)
    ensures var alias := ExistsAlias(hop, ctx, st);
      && alias != ctx.alias && alias !in ctx.scope
      && (ctx.outer.Some? ==> alias != ctx.outer.value)
  {
    assert ExistsAlias(hop, ctx, st) !in InUse(ctx, st);
  }

  // --- correlation ---------------------------------------------------------------------------------

  lemma CorrelationMeans(a: string, hop: Hop, alias: string, sc: Scope, env: Env, row: Row, params: seq<Datum>,
      w: World)
    requires KeyCorrelation(a, hop.source, alias, hop.keys).Ok?
    requires a in env && env[a] == sc.row && alias !in env
    ensures (Holds(KeyCorrelation(a, hop.source, alias, hop.keys).value, env[alias := row], params, w) == True)
            <==> Correlated(w, sc.row, hop, row)
  {
    var inner := env[alias := row];
    var eqs := Equalities(a, hop.source, alias, hop.keys);
    forall i | 0 <= i < |eqs|
      ensures Holds(eqs[i], inner, params, w) == Compare(w, "=", Cell(sc.row, hop.source[i]), Cell(row, hop.keys[i]))
    {
      EqualityMeans(a, hop.source[i], alias, hop.keys[i], env, row, params, w);
    }
    if |eqs| > 1 { AllTrue(eqs, inner, params, w); }
  }

  lemma EqualityMeans(a: string, x: string, alias: string, y: string, env: Env, row: Row, params: seq<Datum>, w: World)
    requires a in env && alias !in env
    ensures Holds(Binary("=", Column([a, x]), Column([alias, y])), env[alias := row], params, w)
            == Compare(w, "=", Cell(env[a], x), Cell(row, y))
  {
    var inner := env[alias := row];
    assert Eval(Column([a, x]), inner, params, w) == Cell(env[a], x);
    assert Eval(Column([alias, y]), inner, params, w) == Cell(row, y);
  }

  lemma {:induction false} InTruths(ns: seq<Node>, i: nat, env: Env, params: seq<Datum>, w: World)
    requires i < |ns|
    ensures Holds(ns[i], env, params, w) in Truths(ns, env, params, w)
  {
    if i > 0 { InTruths(ns[1..], i - 1, env, params, w); }
  }

  lemma {:induction false} OfTruths(ns: seq<Node>, t: Truth, env: Env, params: seq<Datum>, w: World)
    requires t in Truths(ns, env, params, w)
    ensures exists i | 0 <= i < |ns| :: Holds(ns[i], env, params, w) == t
  {
    if t != Holds(ns[0], env, params, w) {
      OfTruths(ns[1..], t, env, params, w);
      var i :| 0 <= i < |ns| - 1 && Holds(ns[1..][i], env, params, w) == t;
      assert Holds(ns[i + 1], env, params, w) == t;
    }
  }

  lemma AllTrue(ns: seq<Node>, env: Env, params: seq<Datum>, w: World)
    ensures (Holds(BoolExpr(AndExpr, ns), env, params, w) == True)
            <==> forall i | 0 <= i < |ns| :: Holds(ns[i], env, params, w) == True
  {
    var ts := Truths(ns, env, params, w);
    TruthOfDatum(Conj(ts));
    if Holds(BoolExpr(AndExpr, ns), env, params, w) == True {
      forall i | 0 <= i < |ns| ensures Holds(ns[i], env, params, w) == True {
        InTruths(ns, i, env, params, w);
      }
    } else {
      var t := if False in ts then False else Unknown;
      OfTruths(ns, t, env, params, w);
    }
  }

  // --- atoms ---------------------------------------------------------------------------------------

  lemma CompareNodeMeans(op: CompareOp, text: string, l: Node, r: Node, env: Env, final: seq<Datum>, w: World)
    requires CanonicalOp(text) == CanonicalOp(OpText(op))
    ensures Holds(CompareNode(op, text, l, r), env, final, w)
            == CompareMeaning(w, op, Eval(l, env, final, w), Eval(r, env, final, w))
  {
    if op == DistinctOp { TruthOfDatum(IsDistinct(w, Eval(l, env, final, w), Eval(r, env, final, w))); }
  }

  lemma ComparisonMeans(c: Intent, s: Schema, ctx: Ctx, st: State, sc: Scope, env: Env, final: seq<Datum>, w: World)
    requires c.Comparison? && Compile(c, s, ctx, st).Ok?
    requires Visible(ctx, sc, env) && Resolved({c.field}, sc)
    requires Carries(final, st, Compile(c, s, ctx, st).value.1)
    ensures Holds(Compile(c, s, ctx, st).value.0, env, final, w) == Meaning(c, s, w, sc)
  {
    if c.operand.OuterField? {
      OuterMeans(c, s, ctx, st, sc, env, final, w);
    } else if c.operand == Literal(Null) {
      NullMeans(c, s, ctx, st, sc, env, final, w);
    } else {
      ColumnMeans(c.field, ctx, sc, env, final, w);
      CarriesOne(final, st, c.operand.value);
      CompareNodeMeans(c.op, OpText(c.op), ColumnOf(c.field, ctx), Param(st.index + 1), env, final, w);
    }
  }

  lemma OuterMeans(c: Intent, s: Schema, ctx: Ctx, st: State, sc: Scope, env: Env, final: seq<Datum>, w: World)
    requires c.Comparison? && c.operand.OuterField? && Compile(c, s, ctx, st).Ok?
    requires Visible(ctx, sc, env) && Resolved({c.field}, sc)
    ensures Holds(Compile(c, s, ctx, st).value.0, env, final, w) == Meaning(c, s, w, sc)
  {
    var left, right := ColumnOf(c.field, ctx), Column([ctx.outer.value, c.operand.column]);
    ColumnMeans(c.field, ctx, sc, env, final, w);
    TwoPartColumn(ctx.outer.value, c.operand.column, env, final, w);
    CompareNodeMeans(c.op, if c.op == Neq then "!=" else OpText(c.op), left, right, env, final, w);
  }

  lemma NullMeans(c: Intent, s: Schema, ctx: Ctx, st: State, sc: Scope, env: Env, final: seq<Datum>, w: World)
    requires c.Comparison? && c.operand == Literal(Null) && Compile(c, s, ctx, st).Ok?
    requires Visible(ctx, sc, env) && Resolved({c.field}, sc)
    ensures Holds(Compile(c, s, ctx, st).value.0, env, final, w) == Meaning(c, s, w, sc)
  {
    ColumnMeans(c.field, ctx, sc, env, final, w);
    assert Eval(NullConst, env, final, w) == Null;
    CompareNodeMeans(DistinctOp, "=", ColumnOf(c.field, ctx), NullConst, env, final, w);
  }

  lemma RangeMeans(c: Intent, s: Schema, ctx: Ctx, st: State, sc: Scope, env: Env, final: seq<Datum>, w: World)
    requires c.Range? && Compile(c, s, ctx, st).Ok?
    requires Visible(ctx, sc, env) && Resolved({c.field}, sc)
    requires Carries(final, st, Compile(c, s, ctx, st).value.1)
    ensures Holds(Compile(c, s, ctx, st).value.0, env, final, w) == Meaning(c, s, w, sc)
  {
    var st1 := Push(st, c.low).value.1;
    var st2 := Push(st1, c.high).value.1;
    ColumnMeans(c.field, ctx, sc, env, final, w);
    CarriesParts(final, st, st1, st2);
    CarriesOne(final, st, c.low);
    CarriesOne(final, st1, c.high);
    assert Eval(Param(st.index + 1), env, final, w) == c.low;
    assert Eval(Param(st.index + 2), env, final, w) == c.high;
    TruthOfDatum(Meaning(c, s, w, sc));
  }

  lemma {:induction false} EvalParams(ns: seq<Node>, first: nat, ds: seq<Datum>, env: Env, final: seq<Datum>, w: World)
    requires |ns| == |ds| && first + |ds| <= |final| && final[first..first + |ds|] == ds
    requires forall i | 0 <= i < |ns| :: ns[i] == Param(first + 1 + i)
    ensures EvalAll(ns, env, final, w) == ds
  {
    if ns != [] {
      var n := |ds|;
      assert final[first] == ds[0];
      assert final[first + 1..first + n] == final[first..first + n][1..];
      EvalParams(ns[1..], first + 1, ds[1..], env, final, w);
    }
  }

  lemma ListMeans(c: Intent, s: Schema, ctx: Ctx, st: State, sc: Scope, env: Env, final: seq<Datum>, w: World)
    requires c.Membership? && c.values != [] && !s.supportsArrays && Compile(c, s, ctx, st).Ok?
    requires Visible(ctx, sc, env) && Resolved({c.field}, sc)
    requires Carries(final, st, Compile(c, s, ctx, st).value.1)
    ensures Holds(Compile(c, s, ctx, st).value.0, env, final, w) == Meaning(c, s, w, sc)
  {
    ColumnMeans(c.field, ctx, sc, env, final, w);
    PushAllBinds(st, c.values);
    var (items, st1) := PushAll(st, c.values).value;
    assert st1.params[|st.params|..] == c.values;
    EvalParams(items, st.index, c.values, env, final, w);
    TruthOfDatum(Meaning(c, s, w, sc));
  }

  lemma ArrayMeans(c: Intent, s: Schema, ctx: Ctx, st: State, sc: Scope, env: Env, final: seq<Datum>, w: World)
    requires c.Membership? && c.values != [] && s.supportsArrays && Coherent(w) && Compile(c, s, ctx, st).Ok?
    requires Visible(ctx, sc, env) && Resolved({c.field}, sc)
    requires Carries(final, st, Compile(c, s, ctx, st).value.1)
    ensures Holds(Compile(c, s, ctx, st).value.0, env, final, w) == Meaning(c, s, w, sc)
  {
    var v := FieldValue(c.field, sc);
    ColumnMeans(c.field, ctx, sc, env, final, w);
    CarriesOne(final, st, ArrayVal(c.values));
    assert Eval(Param(st.index + 1), env, final, w) == ArrayVal(c.values);
    if c.negated { NotInIsAllDifferent(w, v, c.values); }
    TruthOfDatum(Meaning(c, s, w, sc));
  }

  lemma AnyOfNothing(w: World, v: Datum)
    ensures AnyOf(w, "=", v, []) == False
  {
    var none: seq<Datum> := [];
    assert (set d | d in none :: Compare(w, "=", v, d)) == {};
  }

  lemma MembershipMeans(c: Intent, s: Schema, ctx: Ctx, st: State, sc: Scope, env: Env, final: seq<Datum>, w: World)
    requires c.Membership? && Coherent(w) && Compile(c, s, ctx, st).Ok?
    requires Visible(ctx, sc, env) && Resolved({c.field}, sc)
    requires Carries(final, st, Compile(c, s, ctx, st).value.1)
    ensures Holds(Compile(c, s, ctx, st).value.0, env, final, w) == Meaning(c, s, w, sc)
  {
    var v := FieldValue(c.field, sc);
    if c.values == [] {
      AnyOfNothing(w, v);
    } else if s.supportsArrays {
      ArrayMeans(c, s, ctx, st, sc, env, final, w);
    } else {
      ListMeans(c, s, ctx, st, sc, env, final, w);
    }
  }

  // --- paths -----------------------------------------------------------------------------------------

  /** A row satisfies an optional condition. */
  ghost predicate Satisfies(where: Option<Intent>, s: Schema, w: World, sc: Scope) {
    where.Some? ==> Meaning(where.value, s, w, sc) == True
  }

  ghost predicate SomeEnd(hops: seq<Hop>, where: Option<Intent>, s: Schema, w: World, sc: Scope) {
    exists p | Reaches(w, sc.row, hops, p) && |p| > 0 :: Satisfies(where, s, w, EndScope(sc, hops, p))
  }

  /** The scope after one hop. */
  function Step(hop: Hop, r: Row, sc: Scope): Scope { Scope(hop.target, r, Some(sc.row), sc.named) }

  lemma EndScopeFirst(sc: Scope, hops: seq<Hop>, p: seq<Row>)
    requires |hops| == |p| > 1
    ensures EndScope(sc, hops, p) == EndScope(Step(hops[0], p[0], sc), hops[1..], p[1..])
  {
  }

  /** Via a hop is a path of one row. */
  lemma ViaIsOneHop(hop: Hop, negated: bool, where: Option<Intent>, s: Schema, w: World, sc: Scope)
    ensures Meaning(Via(hop, negated, where), s, w, sc) == IfTrue(negated != SomeEnd([hop], where, s, w, sc))
  {
    forall r | r in Rows(w, hop.target) && Correlated(w, sc.row, hop, r) && Satisfies(where, s, w, Step(hop, r, sc))
      ensures SomeEnd([hop], where, s, w, sc)
    {
      assert [r][1..] == [] && [hop][1..] == [];
      assert Reaches(w, sc.row, [hop], [r]);
      assert EndScope(sc, [hop], [r]) == Step(hop, r, sc);
    }
    if SomeEnd([hop], where, s, w, sc) {
      var p :| Reaches(w, sc.row, [hop], p) && |p| > 0 && Satisfies(where, s, w, EndScope(sc, [hop], p));
      assert EndScope(sc, [hop], p) == Step(hop, p[0], sc);
    }
  }

  lemma EndHasFirst(hops: seq<Hop>, where: Option<Intent>, s: Schema, w: World, sc: Scope)
    requires |hops| > 1 && SomeEnd(hops, where, s, w, sc)
    ensures exists r | r in Rows(w, hops[0].target) && Correlated(w, sc.row, hops[0], r) ::
      SomeEnd(hops[1..], where, s, w, Step(hops[0], r, sc))
  {
    var p :| Reaches(w, sc.row, hops, p) && |p| > 0 && Satisfies(where, s, w, EndScope(sc, hops, p));
    EndScopeFirst(sc, hops, p);
    assert SomeEnd(hops[1..], where, s, w, Step(hops[0], p[0], sc));
  }

  lemma FirstHasEnd(hops: seq<Hop>, where: Option<Intent>, s: Schema, w: World, sc: Scope, r: Row)
    requires |hops| > 1 && r in Rows(w, hops[0].target) && Correlated(w, sc.row, hops[0], r)
    requires SomeEnd(hops[1..], where, s, w, Step(hops[0], r, sc))
    ensures SomeEnd(hops, where, s, w, sc)
  {
    var sc1 := Step(hops[0], r, sc);
    var q :| Reaches(w, r, hops[1..], q) && |q| > 0 && Satisfies(where, s, w, EndScope(sc1, hops[1..], q));
    OneMoreRow(w, sc.row, hops, r, q);
    EndScopeFirst(sc, hops, [r] + q);
    assert Satisfies(where, s, w, EndScope(sc, hops, [r] + q));
  }

  lemma OneMoreRow(w: World, from: Row, hops: seq<Hop>, r: Row, q: seq<Row>)
    requires hops != [] && r in Rows(w, hops[0].target) && Correlated(w, from, hops[0], r)
    requires Reaches(w, r, hops[1..], q)
    ensures Reaches(w, from, hops, [r] + q) && ([r] + q)[1..] == q
  {
    assert ([r] + q)[1..] == q;
  }

  /** Some end of a path satisfies the condition if some first row has such an end. */
  lemma SomeEndFirst(hops: seq<Hop>, where: Option<Intent>, s: Schema, w: World, sc: Scope)
    requires |hops| > 1
    ensures SomeEnd(hops, where, s, w, sc) <==>
      exists r | r in Rows(w, hops[0].target) && Correlated(w, sc.row, hops[0], r) ::
        SomeEnd(hops[1..], where, s, w, Step(hops[0], r, sc))
  {
    if SomeEnd(hops, where, s, w, sc) { EndHasFirst(hops, where, s, w, sc); }
    forall r | r in Rows(w, hops[0].target) && Correlated(w, sc.row, hops[0], r) &&
               SomeEnd(hops[1..], where, s, w, Step(hops[0], r, sc))
      ensures SomeEnd(hops, where, s, w, sc)
    {
      FirstHasEnd(hops, where, s, w, sc, r);
    }
  }

  /**
   The nested chain for a path of any length is true of a row exactly when some row at the end
   of the path satisfies the condition; negated, exactly when none does.
   */
  lemma {:induction false} NestMeans(hops: seq<Hop>, negated: bool, where: Option<Intent>, s: Schema, w: World,
      sc: Scope)
    requires hops != []
    ensures Meaning(Nest(hops, negated, where), s, w, sc) == IfTrue(negated != SomeEnd(hops, where, s, w, sc))
    decreases |hops|
  {
    if |hops| == 1 {
      assert hops == [hops[0]];
      ViaIsOneHop(hops[0], negated, where, s, w, sc);
    } else {
      SomeEndFirst(hops, where, s, w, sc);
      forall r ensures Meaning(Nest(hops[1..], false, where), s, w, Step(hops[0], r, sc))
                       == IfTrue(SomeEnd(hops[1..], where, s, w, Step(hops[0], r, sc)))
      {
        NestMeans(hops[1..], false, where, s, w, Step(hops[0], r, sc));
      }
    }
  }

  lemma SomeIsNest(path: seq<string>, mode: Mode, where: Option<Intent>, s: Schema, w: World, sc: Scope)
    requires Hops(s, sc.table, path).Some? && mode != Every
    ensures Meaning(RelationFilter(path, mode, where), s, w, sc)
            == IfTrue((mode == NoneOf) != SomeEnd(Hops(s, sc.table, path).value, where, s, w, sc))
  {
  }

  lemma EveryIsNest(path: seq<string>, where: Intent, s: Schema, w: World, sc: Scope)
    requires Hops(s, sc.table, path).Some?
    ensures Meaning(RelationFilter(path, Every, Some(where)), s, w, sc)
            == IfTrue(!SomeEnd(Hops(s, sc.table, path).value, Some(Negation(where)), s, w, sc))
  {
    var hops := Hops(s, sc.table, path).value;
    forall p | Reaches(w, sc.row, hops, p) && |p| > 0
      ensures Satisfies(Some(Negation(where)), s, w, EndScope(sc, hops, p))
              <==> Meaning(where, s, w, EndScope(sc, hops, p)) == False
    {
    }
  }

  /** The chain a relation filter is lowered to has the filter's meaning, in each mode. */
  lemma FilterIsNest(path: seq<string>, mode: Mode, where: Option<Intent>, s: Schema, w: World, sc: Scope)
    requires Hops(s, sc.table, path).Some?
    requires mode == Every ==> where.Some?
    ensures var hops := Hops(s, sc.table, path).value;
      hops != [] &&
      Meaning(RelationFilter(path, mode, where), s, w, sc)
      == Meaning(Nest(hops, mode != AtLeastOne, Innermost(mode, where)), s, w, sc)
  {
    HopsNonEmpty(s, sc.table, path);
    NestMeans(Hops(s, sc.table, path).value, mode != AtLeastOne, Innermost(mode, where), s, w, sc);
    if mode == Every {
      EveryIsNest(path, where.value, s, w, sc);
    } else {
      SomeIsNest(path, mode, where, s, w, sc);
    }
  }

  /** The constant for a vacuous `every` is what the chain it replaces means. */
  lemma VacuousEveryIsTheChain(path: seq<string>, s: Schema, w: World, sc: Scope)
    requires Hops(s, sc.table, path).Some?
    ensures var hops := Hops(s, sc.table, path).value;
      hops != [] && Meaning(Nest(hops, true, Some(Negation(And([])))), s, w, sc) == True
    ensures forall where | Vacuous(where) :: Meaning(RelationFilter(path, Every, where), s, w, sc) == True
  {
    HopsNonEmpty(s, sc.table, path);
    NestMeans(Hops(s, sc.table, path).value, true, Some(Negation(And([]))), s, w, sc);
  }

  // --- the theorem ---------------------------------------------------------------------------------

  lemma OneTruth(n: Node, env: Env, final: seq<Datum>, w: World)
    ensures Truths([n], env, final, w) == {Holds(n, env, final, w)}
  {
    assert [n][1..] == [];
  }

  lemma NotMeans(n: Node, env: Env, final: seq<Datum>, w: World)
    ensures Holds(BoolExpr(NotExpr, [n]), env, final, w) == Semantics.Not(Holds(n, env, final, w))
  {
    OneTruth(n, env, final, w);
    assert Conj({Holds(n, env, final, w)}) == Holds(n, env, final, w);
  }

  /** One element, no element and several elements wrap to the same meaning. */
  lemma WrapMeans(op: BoolOp, nodes: seq<Node>, st: State, env: Env, final: seq<Datum>, w: World)
    requires op != NotExpr
    ensures var ts := Truths(nodes, env, final, w);
      Holds(Wrap(op, Ok((nodes, st))).value.0, env, final, w) == (if op == AndExpr then Conj(ts) else Disj(ts))
  {
    if |nodes| == 1 {
      assert nodes == [nodes[0]];
      OneTruth(nodes[0], env, final, w);
    }
  }

  lemma {:induction false} TruthsLast(ns: seq<Node>, n: Node, env: Env, final: seq<Datum>, w: World)
    ensures Truths(ns + [n], env, final, w) == Truths(ns, env, final, w) + {Holds(n, env, final, w)}
  {
    if ns == [] {
      assert ns + [n] == [n];
      OneTruth(n, env, final, w);
    } else {
      assert (ns + [n])[1..] == ns[1..] + [n];
      TruthsLast(ns[1..], n, env, final, w);
    }
  }

  lemma {:induction false} NestFields(hops: seq<Hop>, negated: bool, where: Option<Intent>)
    requires hops != []
    ensures Fields(Nest(hops, negated, where)) == FieldsOf(where)
    decreases |hops|
  {
    if |hops| > 1 {
      NestFields(hops[1..], false, where);
      assert FieldsOf(Some(Nest(hops[1..], false, where))) == FieldsOf(where);
    }
  }

  lemma InnermostFields(mode: Mode, where: Option<Intent>)
    ensures FieldsOf(Innermost(mode, where)) == FieldsOf(where)
  {
    if where.Some? { assert Fields(Negation(where.value)) == Fields(where.value); }
  }

  /**
   Compiling a condition from any parameter state gives a node that, under every final array
   carrying the values bound on the way, has the condition's three-valued meaning.
   */
  lemma {:induction false} CompileMeans(c: Intent, s: Schema, ctx: Ctx, st: State, sc: Scope, env: Env,
      final: seq<Datum>, w: World)
    requires Coherent(w) && Visible(ctx, sc, env) && Resolved(Fields(c), sc)
    requires Compile(c, s, ctx, st).Ok? && Carries(final, st, Compile(c, s, ctx, st).value.1)
    ensures Holds(Compile(c, s, ctx, st).value.0, env, final, w) == Meaning(c, s, w, sc)
    decreases Size(c), 1
  {
    match c
    case Comparison(_, _, _) => ComparisonMeans(c, s, ctx, st, sc, env, final, w);
    case NullCheck(field, _) => ColumnMeans(field, ctx, sc, env, final, w);
    case Range(_, _, _) => RangeMeans(c, s, ctx, st, sc, env, final, w);
    case Membership(_, _, _) => MembershipMeans(c, s, ctx, st, sc, env, final, w);
    case And(cs) =>
      CompileAllMeans(cs, s, ctx, st, sc, env, final, w);
      WrapMeans(AndExpr, CompileAll(cs, s, ctx, st).value.0, CompileAll(cs, s, ctx, st).value.1, env, final, w);
    case Or(cs) =>
      CompileAllMeans(cs, s, ctx, st, sc, env, final, w);
      WrapMeans(OrExpr, CompileAll(cs, s, ctx, st).value.0, CompileAll(cs, s, ctx, st).value.1, env, final, w);
    case Negation(x) =>
      CompileMeans(x, s, ctx, st, sc, env, final, w);
      NotMeans(Compile(x, s, ctx, st).value.0, env, final, w);
    case Related(_, _, _) => RelatedMeans(c, s, ctx, st, sc, env, final, w);
    case RelationFilter(_, _, _) => FilterMeans(c, s, ctx, st, sc, env, final, w);
    case Via(_, _, _) => ViaMeans(c, s, ctx, st, sc, env, final, w);
  }

  lemma {:induction false} CompileAllMeans(cs: seq<Intent>, s: Schema, ctx: Ctx, st: State, sc: Scope, env: Env,
      final: seq<Datum>, w: World)
    requires Coherent(w) && Visible(ctx, sc, env) && Resolved(FieldsOfAll(cs), sc)
    requires CompileAll(cs, s, ctx, st).Ok? && Carries(final, st, CompileAll(cs, s, ctx, st).value.1)
    ensures Truths(CompileAll(cs, s, ctx, st).value.0, env, final, w) == Meanings(cs, s, w, sc)
    decreases SizeAll(cs), 2, |cs|
  {
    if cs != [] {
      var front, last := cs[..|cs| - 1], cs[|cs| - 1];
      var (nodes, st1) := CompileAll(front, s, ctx, st).value;
      var (node, st2) := Compile(last, s, ctx, st1).value;
      CompileAllGrows(front, s, ctx, st);
      CompileGrows(last, s, ctx, st1);
      CarriesParts(final, st, st1, st2);
      CompileAllMeans(front, s, ctx, st, sc, env, final, w);
      CompileMeans(last, s, ctx, st1, sc, env, final, w);
      TruthsLast(nodes, node, env, final, w);
    }
  }

  lemma {:induction false} RelatedMeans(c: Intent, s: Schema, ctx: Ctx, st: State, sc: Scope, env: Env,
      final: seq<Datum>, w: World)
    requires c.Related? && Coherent(w) && Visible(ctx, sc, env) && Resolved(Fields(c), sc)
    requires Compile(c, s, ctx, st).Ok? && Carries(final, st, Compile(c, s, ctx, st).value.1)
    ensures Holds(Compile(c, s, ctx, st).value.0, env, final, w) == Meaning(c, s, w, sc)
    decreases Size(c), 0
  {
    var r := Resolve(s.model.value, ctx.rootTable, c.relation).value;
    var via := Via(HopOf(r), c.negated, c.where);
    CompileMeans(via, s, ctx, st, sc, env, final, w);
    ViaIsOneHop(HopOf(r), c.negated, c.where, s, w, sc);
    RelatedIsOneHop(c, s, w, sc);
  }

  lemma RelatedIsOneHop(c: Intent, s: Schema, w: World, sc: Scope)
    requires c.Related? && s.model.Some? && Resolve(s.model.value, sc.table, c.relation).Some?
    ensures var r := Resolve(s.model.value, sc.table, c.relation).value;
      Meaning(c, s, w, sc) == IfTrue(c.negated != SomeEnd([HopOf(r)], c.where, s, w, sc))
  {
    var r := Resolve(s.model.value, sc.table, c.relation).value;
    assert [c.relation][1..] == [];
    assert ResolvePath(s.model.value, r.target, [c.relation][1..]) == Some([]);
    assert [HopOf(r)] + [] == [HopOf(r)];
    assert ResolvePath(s.model.value, sc.table, [c.relation]) == Some([HopOf(r)]);
    assert Hops(s, sc.table, [c.relation]) == Some([HopOf(r)]);
  }

  lemma {:induction false} FilterMeans(c: Intent, s: Schema, ctx: Ctx, st: State, sc: Scope, env: Env,
      final: seq<Datum>, w: World)
    requires c.RelationFilter? && Coherent(w) && Visible(ctx, sc, env) && Resolved(Fields(c), sc)
    requires Compile(c, s, ctx, st).Ok? && Carries(final, st, Compile(c, s, ctx, st).value.1)
    ensures Holds(Compile(c, s, ctx, st).value.0, env, final, w) == Meaning(c, s, w, sc)
    decreases Size(c), 0
  {
    if c.mode == Every && Vacuous(c.where) {
      VacuousEveryIsTheChain(c.path, s, w, sc);
    } else {
      var hops := Hops(s, ctx.rootTable, c.path).value;
      var inner := Innermost(c.mode, c.where);
      FilterIsNest(c.path, c.mode, c.where, s, w, sc);
      HopsNonEmpty(s, ctx.rootTable, c.path);
      NestFields(hops, c.mode != AtLeastOne, inner);
      InnermostFields(c.mode, c.where);
      CompileMeans(Nest(hops, c.mode != AtLeastOne, inner), s, ctx, st, sc, env, final, w);
    }
  }

  lemma {:induction false} ViaMeans(c: Intent, s: Schema, ctx: Ctx, st: State, sc: Scope, env: Env, final: seq<Datum>,
      w: World)
    requires c.Via? && Coherent(w) && Visible(ctx, sc, env) && Resolved(Fields(c), sc)
    requires Compile(c, s, ctx, st).Ok? && Carries(final, st, Compile(c, s, ctx, st).value.1)
    ensures Holds(Compile(c, s, ctx, st).value.0, env, final, w) == Meaning(c, s, w, sc)
    decreases Size(c), 0
  {
    var alias := ExistsAlias(c.hop, ctx, st);
    var exists_ := ViaNode(c, s, ctx, st);
    forall row
      ensures (Holds(exists_.condition, env[alias := row], final, w) == True)
              <==> Correlated(w, sc.row, c.hop, row) && Satisfies(c.where, s, w, Step(c.hop, row, sc))
    {
      ViaRowMeans(c, s, ctx, st, sc, env, row, final, w);
    }
    ExistsMeans(exists_, c, s, sc, env, final, w);
    if c.negated { NotMeans(exists_, env, final, w); }
  }

  /** The EXISTS node a hop is lowered to. */
  ghost function ViaNode(c: Intent, s: Schema, ctx: Ctx, st: State): (n: Node)
    requires c.Via? && Compile(c, s, ctx, st).Ok?
    ensures n.Exists? && n.table == c.hop.target && n.alias == ExistsAlias(c.hop, ctx, st)
    ensures Compile(c, s, ctx, st).value.0 == if c.negated then BoolExpr(NotExpr, [n]) else n
  {
    var node := Compile(c, s, ctx, st).value.0;
    if c.negated then node.args[0] else node
  }

  lemma ExistsMeans(n: Node, c: Intent, s: Schema, sc: Scope, env: Env, final: seq<Datum>, w: World)
    requires n.Exists? && c.Via? && n.table == c.hop.target
    requires forall row ::
      (Holds(n.condition, env[n.alias := row], final, w) == True)
      <==> Correlated(w, sc.row, c.hop, row) && Satisfies(c.where, s, w, Step(c.hop, row, sc))
    ensures Meaning(c, s, w, sc) ==
            if c.negated then Semantics.Not(Holds(n, env, final, w)) else Holds(n, env, final, w)
  {
    var found := exists row | row in Rows(w, n.table) :: Holds(n.condition, env[n.alias := row], final, w) == True;
    assert Holds(n, env, final, w) == IfTrue(found);
    assert found <==> exists r | r in Rows(w, c.hop.target) && Correlated(w, sc.row, c.hop, r) ::
      Satisfies(c.where, s, w, Step(c.hop, r, sc));
  }

  lemma ViaParts(c: Intent, s: Schema, ctx: Ctx, st: State)
    requires c.Via? && Compile(c, s, ctx, st).Ok?
    ensures KeyCorrelation(ctx.alias, c.hop.source, ExistsAlias(c.hop, ctx, st), c.hop.keys).Ok?
    ensures var alias := ExistsAlias(c.hop, ctx, st);
      var correlation := KeyCorrelation(ctx.alias, c.hop.source, alias, c.hop.keys).value;
      var condition := ViaNode(c, s, ctx, st).condition;
      if c.where.None? then condition == correlation && Compile(c, s, ctx, st).value.1 == WithAlias(st, alias)
      else
        var r := Compile(c.where.value, s, InnerCtx(c.hop, alias, ctx), WithAlias(st, alias));
        && r.Ok?
        && condition == BoolExpr(AndExpr, [correlation, r.value.0])
        && r.value.1 == Compile(c, s, ctx, st).value.1
  {
  }

  /** Of one row, the condition inside the EXISTS says that it correlates and satisfies the inner condition. */
  lemma {:induction false} ViaRowMeans(c: Intent, s: Schema, ctx: Ctx, st: State, sc: Scope, env: Env, row: Row,
      final: seq<Datum>, w: World)
    requires c.Via? && Coherent(w) && Visible(ctx, sc, env) && Resolved(Fields(c), sc)
    requires Compile(c, s, ctx, st).Ok? && Carries(final, st, Compile(c, s, ctx, st).value.1)
    ensures (Holds(ViaNode(c, s, ctx, st).condition, env[ExistsAlias(c.hop, ctx, st) := row], final, w) == True)
            <==> Correlated(w, sc.row, c.hop, row) && Satisfies(c.where, s, w, Step(c.hop, row, sc))
    decreases Size(c), 0, 1
  {
    if c.where.Some? {
      ViaRowWithMeans(c, s, ctx, st, sc, env, row, final, w);
    } else {
      ViaParts(c, s, ctx, st);
      InnerIsVisible(c.hop, ctx, st, sc, env, row);
      CorrelationMeans(ctx.alias, c.hop, ExistsAlias(c.hop, ctx, st), sc, env, row, final, w);
    }
  }

  lemma {:induction false} ViaRowWithMeans(c: Intent, s: Schema, ctx: Ctx, st: State, sc: Scope, env: Env, row: Row,
      final: seq<Datum>, w: World)
    requires c.Via? && c.where.Some? && Coherent(w) && Visible(ctx, sc, env) && Resolved(Fields(c), sc)
    requires Compile(c, s, ctx, st).Ok? && Carries(final, st, Compile(c, s, ctx, st).value.1)
    ensures (Holds(ViaNode(c, s, ctx, st).condition, env[ExistsAlias(c.hop, ctx, st) := row], final, w) == True)
            <==> Correlated(w, sc.row, c.hop, row) && Satisfies(c.where, s, w, Step(c.hop, row, sc))
    decreases Size(c), 0, 0
  {
    var alias := ExistsAlias(c.hop, ctx, st);
    var where := c.where.value;
    ViaParts(c, s, ctx, st);
    InnerIsVisible(c.hop, ctx, st, sc, env, row);
    CorrelationMeans(ctx.alias, c.hop, alias, sc, env, row, final, w);
    assert Size(c) == 1 + SizeOpt(c.where) == 1 + Size(where);
    assert Fields(c) == FieldsOf(c.where) == Fields(where);
    InnerMeans(where, s, c.hop, ctx, st, sc, env, row, final, w);
    BothTrue(KeyCorrelation(ctx.alias, c.hop.source, alias, c.hop.keys).value,
             Compile(where, s, InnerCtx(c.hop, alias, ctx), WithAlias(st, alias)).value.0, env[alias := row], final, w);
  }

  lemma {:induction false} InnerMeans(x: Intent, s: Schema, hop: Hop, ctx: Ctx, st: State, sc: Scope, env: Env,
      row: Row, final: seq<Datum>, w: World)
    requires Coherent(w) && Visible(ctx, sc, env) && Resolved(Fields(x), sc)
    requires var alias := ExistsAlias(hop, ctx, st);
      var r := Compile(x, s, InnerCtx(hop, alias, ctx), WithAlias(st, alias));
      r.Ok? && Carries(final, st, r.value.1)
    ensures var alias := ExistsAlias(hop, ctx, st);
      Holds(Compile(x, s, InnerCtx(hop, alias, ctx), WithAlias(st, alias)).value.0, env[alias := row], final, w)
      == Meaning(x, s, w, Step(hop, row, sc))
    decreases Size(x), 2
  {
    var alias := ExistsAlias(hop, ctx, st);
    InnerIsVisible(hop, ctx, st, sc, env, row);
    CompileMeans(x, s, InnerCtx(hop, alias, ctx), WithAlias(st, alias), Step(hop, row, sc), env[alias := row], final,
        w);
  }

  lemma BothTrue(a: Node, b: Node, env: Env, final: seq<Datum>, w: World)
    ensures (Holds(BoolExpr(AndExpr, [a, b]), env, final, w) == True)
            <==> Holds(a, env, final, w) == True && Holds(b, env, final, w) == True
  {
    AllTrue([a, b], env, final, w);
    assert [a, b][0] == a && [a, b][1] == b;
  }
}
