/**
 Why a condition is refused: the error that ends packages/adapter-pgsql/src/condition-compiler-factory.ts:563-939
 names a flaw that is there, and the parameter limit is named only where it is exceeded.
 */
module Refusals {
  import opened Common
  import opened Ast
  import opened Conditions
  import opened ConditionMeaning
  import opened Acceptance

  /** A hop without a table, or whose key columns do not pair up. */
  predicate HopFlaw(e: Error, hop: Hop) {
    || (e == MissingTarget && hop.target == [])
    || (e == BadCorrelation &&
        (hop.source == [] || |hop.source| != |hop.keys| || [] in hop.source || [] in hop.keys))
  }

  predicate ComparisonFlaw(e: Error, field: string, op: CompareOp, operand: Operand, hasOuter: bool) {
    || (e == MissingColumn && (field == [] || operand == OuterField([])))
    || (e == NullOperator && operand == Literal(Null) && op in {Lt, Lte, Gt, Gte})
    || (e == NoOuterRange && operand.OuterField? && !hasOuter)
    || (e == QualifiedOuter && operand.OuterField? && '.' in operand.column)
  }

  /** The error names something that is wrong with the condition on rows of this table. */
  predicate Flaw(e: Error, c: Intent, s: Schema, table: string, hasOuter: bool)
    decreases c, 1
  {
    match c
    case Comparison(field, op, operand) => ComparisonFlaw(e, field, op, operand, hasOuter)
    case NullCheck(field, _) => e == MissingColumn && field == []
    case Range(field, _, _) => e == MissingColumn && field == []
    case Membership(field, _, _) => e == MissingColumn && field == []
    case And(cs) => FlawIn(e, cs, s, table, hasOuter)
    case Or(cs) => FlawIn(e, cs, s, table, hasOuter)
    case Negation(x) => Flaw(e, x, s, table, hasOuter)
    case Related(relation, _, where) =>
      if s.model.None? then e == NoModel
      else
        (match Resolve(s.model.value, table, relation)
         case None => e == UndeclaredRelation
         case Some(r) => HopFlaw(e, HopOf(r)) || FlawOf(e, where, s, r.target))
    case RelationFilter(path, mode, where) =>
      (match Hops(s, table, path)
       case None => e == if s.model.None? && path != [] then NoModel else UndeclaredRelation
       case Some(hops) =>
         || (e == NoModel && s.model.None? && mode == Every && Vacuous(where))
         || (exists h | h in hops :: HopFlaw(e, h))
         || (hops != [] && FlawOf(e, where, s, hops[|hops| - 1].target)))
    case Via(hop, _, where) => HopFlaw(e, hop) || FlawOf(e, where, s, hop.target)
  }

  predicate FlawOf(e: Error, where: Option<Intent>, s: Schema, table: string)
    decreases where, 2
  {
    where.Some? && Flaw(e, where.value, s, table, true)
  }

  predicate FlawIn(e: Error, cs: seq<Intent>, s: Schema, table: string, hasOuter: bool)
    decreases cs, 0
  {
    cs != [] && (FlawIn(e, cs[..|cs| - 1], s, table, hasOuter) || Flaw(e, cs[|cs| - 1], s, table, hasOuter))
  }

  /** The parameter limit is exceeded, or the error is another and names a flaw. */
  predicate Reason(e: Error, c: Intent, s: Schema, ctx: Ctx, st: State) {
    if e == ParameterLimit then !Room(st, |Bindings(c, s)|) else Flaw(e, c, s, ctx.rootTable, ctx.outer.Some?)
  }

  predicate Told(c: Intent, s: Schema, ctx: Ctx, st: State) {
    Compile(c, s, ctx, st).Err? ==> Reason(Compile(c, s, ctx, st).error, c, s, ctx, st)
  }

  lemma {:induction false} PushAllTold(st: State, ds: seq<Datum>)
    ensures PushAll(st, ds).Err? ==> PushAll(st, ds).error == ParameterLimit
  {
    if ds != [] { PushAllTold(st, ds[..|ds| - 1]); }
  }

  lemma MembershipTold(c: Intent, s: Schema, ctx: Ctx, st: State)
    requires c.Membership?
    ensures Told(c, s, ctx, st)
  {
    PushAllTold(st, c.values);
    PushAllRoom(st, c.values);
  }

  /** Every refusal tells the truth. */
  lemma {:induction false} RefusalsTellWhy(c: Intent, s: Schema, ctx: Ctx, st: State)
    ensures Told(c, s, ctx, st)
    decreases Size(c), 1
  {
    match c
    case Comparison(_, _, _) =>
    case NullCheck(_, _) =>
    case Range(_, _, _) =>
    case Membership(_, _, _) => MembershipTold(c, s, ctx, st);
    case And(cs) => AllTold(cs, s, ctx, st);
    case Or(cs) => AllTold(cs, s, ctx, st);
    case Negation(x) => RefusalsTellWhy(x, s, ctx, st);
    case Related(_, _, _) => RelatedTold(c, s, ctx, st);
    case RelationFilter(_, _, _) => FilterTold(c, s, ctx, st);
    case Via(_, _, _) => ViaTold(c, s, ctx, st);
  }

  lemma {:induction false} AllTold(cs: seq<Intent>, s: Schema, ctx: Ctx, st: State)
    ensures var r := CompileAll(cs, s, ctx, st);
      r.Err? ==> if r.error == ParameterLimit then !Room(st, |BindingsOfAll(cs, s)|)
                 else FlawIn(r.error, cs, s, ctx.rootTable, ctx.outer.Some?)
    decreases SizeAll(cs), 2, |cs|
  {
    if cs != [] {
      var front := cs[..|cs| - 1];
      AllTold(front, s, ctx, st);
      CompilesAllExactly(front, s, ctx, st);
      if CompileAll(front, s, ctx, st).Ok? {
        RefusalsTellWhy(cs[|cs| - 1], s, ctx, CompileAll(front, s, ctx, st).value.1);
      }
    }
  }

  lemma {:induction false} RelatedTold(c: Intent, s: Schema, ctx: Ctx, st: State)
    requires c.Related?
    ensures Told(c, s, ctx, st)
    decreases Size(c), 0
  {
    if s.model.Some? && Resolve(s.model.value, ctx.rootTable, c.relation).Some? {
      var r := Resolve(s.model.value, ctx.rootTable, c.relation).value;
      var via := Via(HopOf(r), c.negated, c.where);
      RefusalsTellWhy(via, s, ctx, st);
      RelatedIsVia(c, s, ctx.rootTable, ctx.outer.Some?);
      assert Compile(c, s, ctx, st) == Compile(via, s, ctx, st);
    }
  }

  /** A flaw of a chain is one of a hop or of the condition at its end. */
  lemma {:induction false} NestFlaw(e: Error, hops: seq<Hop>, negated: bool, where: Option<Intent>, s: Schema,
      table: string, hasOuter: bool)
    requires hops != []
    ensures Flaw(e, Nest(hops, negated, where), s, table, hasOuter) ==>
      (exists h | h in hops :: HopFlaw(e, h)) || FlawOf(e, where, s, hops[|hops| - 1].target)
    decreases |hops|
  {
    if |hops| > 1 {
      var inner := Nest(hops[1..], false, where);
      NestFlaw(e, hops[1..], false, where, s, hops[0].target, true);
      assert FlawOf(e, Some(inner), s, hops[0].target) == Flaw(e, inner, s, hops[0].target, true);
      assert forall h | h in hops[1..] :: h in hops;
    }
    assert hops[0] in hops;
  }

  lemma {:induction false} FilterTold(c: Intent, s: Schema, ctx: Ctx, st: State)
    requires c.RelationFilter?
    ensures Told(c, s, ctx, st)
    decreases Size(c), 0
  {
    if !(c.mode == Every && Vacuous(c.where)) && Hops(s, ctx.rootTable, c.path).Some? {
      var hops := Hops(s, ctx.rootTable, c.path).value;
      var inner := Innermost(c.mode, c.where);
      FilterLowers(c, s, ctx, st);
      RefusalsTellWhy(Nest(hops, c.mode != AtLeastOne, inner), s, ctx, st);
      NestMatchesFilter(c, hops, s, ctx.rootTable, ctx.outer.Some?);
      FilterFlaw(c, hops, s, ctx, st);
    }
  }

  lemma FilterFlaw(c: Intent, hops: seq<Hop>, s: Schema, ctx: Ctx, st: State)
    requires c.RelationFilter? && !(c.mode == Every && Vacuous(c.where))
    requires hops != [] && Hops(s, ctx.rootTable, c.path) == Some(hops)
    requires var nest := Nest(hops, c.mode != AtLeastOne, Innermost(c.mode, c.where));
      && Bindings(nest, s) == Bindings(c, s) && Told(nest, s, ctx, st)
      && Compile(c, s, ctx, st) == Compile(nest, s, ctx, st)
    ensures Told(c, s, ctx, st)
  {
    var r, inner := Compile(c, s, ctx, st), Innermost(c.mode, c.where);
    if r.Err? && r.error != ParameterLimit {
      NestFlaw(r.error, hops, c.mode != AtLeastOne, inner, s, ctx.rootTable, ctx.outer.Some?);
      assert FlawOf(r.error, inner, s, hops[|hops| - 1].target) ==
        FlawOf(r.error, c.where, s, hops[|hops| - 1].target);
    }
  }

  /** A hop that is no flaw compiles up to the condition inside it. */
  lemma HopTold(c: Intent, s: Schema, ctx: Ctx, st: State)
    requires c.Via? && Compile(c, s, ctx, st).Err?
    ensures var e := Compile(c, s, ctx, st).error;
      || HopFlaw(e, c.hop)
      || (c.where.Some? &&
          var alias := ExistsAlias(c.hop, ctx, st);
          Compile(c.where.value, s, InnerCtx(c.hop, alias, ctx), WithAlias(st, alias)) == Err(e))
  {
  }

  lemma NoHopFlaw(hop: Hop)
    ensures !HopFlaw(ParameterLimit, hop)
  {
  }

  lemma {:induction false} ViaTold(c: Intent, s: Schema, ctx: Ctx, st: State)
    requires c.Via?
    ensures Told(c, s, ctx, st)
    decreases Size(c), 0
  {
    var alias := ExistsAlias(c.hop, ctx, st);
    if Compile(c, s, ctx, st).Err? {
      HopTold(c, s, ctx, st);
      NoHopFlaw(c.hop);
      if c.where.Some? {
        assert Size(c) == 1 + SizeOpt(c.where) == 1 + Size(c.where.value);
        RefusalsTellWhy(c.where.value, s, InnerCtx(c.hop, alias, ctx), WithAlias(st, alias));
        InnerTold(c, s, ctx, st);
      }
    }
  }

  lemma InnerTold(c: Intent, s: Schema, ctx: Ctx, st: State)
    requires c.Via? && c.where.Some? && Compile(c, s, ctx, st).Err?
    requires var e, alias := Compile(c, s, ctx, st).error, ExistsAlias(c.hop, ctx, st);
      && (HopFlaw(e, c.hop) ||
          Compile(c.where.value, s, InnerCtx(c.hop, alias, ctx), WithAlias(st, alias)) == Err(e))
      && Told(c.where.value, s, InnerCtx(c.hop, alias, ctx), WithAlias(st, alias))
    ensures Told(c, s, ctx, st)
  {
    NoHopFlaw(c.hop);
    assert Bindings(c, s) == BindingsOf(c.where, s) == Bindings(c.where.value, s);
    assert FlawOf(Compile(c, s, ctx, st).error, c.where, s, c.hop.target)
        == Flaw(Compile(c, s, ctx, st).error, c.where.value, s, c.hop.target, true);
  }

  /** At the top level a junction table is named exactly where some relation predicate crosses one. */
  lemma TopLevelTellsWhy(c: Intent, s: Schema, ctx: Ctx, st: State)
    requires CompileCondition(c, s, ctx, st).Err?
    ensures var e := CompileCondition(c, s, ctx, st).error;
      if s.model.Some? && CrossesManyToMany(c, s.model.value, ctx.rootTable) then e == ManyToMany
      else e != ManyToMany && Reason(e, c, s, ctx, st)
  {
    RefusalsTellWhy(c, s, ctx, st);
    if Compile(c, s, ctx, st).Err? { NoFlawIsManyToMany(c, s, ctx.rootTable, ctx.outer.Some?); }
  }

  lemma {:induction false} NoFlawIsManyToMany(c: Intent, s: Schema, table: string, hasOuter: bool)
    ensures !Flaw(ManyToMany, c, s, table, hasOuter)
    decreases c, 1
  {
    match c
    case And(cs) => NoneIsManyToMany(cs, s, table, hasOuter);
    case Or(cs) => NoneIsManyToMany(cs, s, table, hasOuter);
    case Negation(x) => NoFlawIsManyToMany(x, s, table, hasOuter);
    case Related(relation, _, where) =>
      if where.Some? && s.model.Some? && Resolve(s.model.value, table, relation).Some? {
        NoFlawIsManyToMany(where.value, s, Resolve(s.model.value, table, relation).value.target, true);
      }
    case RelationFilter(path, _, where) =>
      if where.Some? && Hops(s, table, path).Some? && Hops(s, table, path).value != [] {
        var hops := Hops(s, table, path).value;
        NoFlawIsManyToMany(where.value, s, hops[|hops| - 1].target, true);
      }
    case Via(hop, _, where) => if where.Some? { NoFlawIsManyToMany(where.value, s, hop.target, true); }
    case _ =>
  }

  lemma {:induction false} NoneIsManyToMany(cs: seq<Intent>, s: Schema, table: string, hasOuter: bool)
    ensures !FlawIn(ManyToMany, cs, s, table, hasOuter)
    decreases cs, 0
  {
    if cs != [] {
      NoneIsManyToMany(cs[..|cs| - 1], s, table, hasOuter);
      NoFlawIsManyToMany(cs[|cs| - 1], s, table, hasOuter);
    }
  }
}
