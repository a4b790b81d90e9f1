/** Which conditions compile, and how many parameters they take. */
module Acceptance {
  import opened Common
  import opened Ast
  import opened Conditions
  import opened ConditionMeaning

  /** The values a condition binds, in order. */
  function Bindings(c: Intent, s: Schema): seq<Datum>
    decreases c, 1
  {
    match c
    case Comparison(_, _, operand) => if operand.OuterField? || operand == Literal(Null) then [] else [operand.value]
    case NullCheck(_, _) => []
    case Range(_, low, high) => [low, high]
    case Membership(_, _, values) => if values != [] && s.supportsArrays then [ArrayVal(values)] else values
    case And(cs) => BindingsOfAll(cs, s)
    case Or(cs) => BindingsOfAll(cs, s)
    case Negation(x) => Bindings(x, s)
    case Related(_, _, where) => BindingsOf(where, s)
    case RelationFilter(_, _, where) => BindingsOf(where, s)
    case Via(_, _, where) => BindingsOf(where, s)
  }

  function BindingsOf(where: Option<Intent>, s: Schema): seq<Datum>
    decreases where, 2
  {
    if where.None? then [] else Bindings(where.value, s)
  }

  function BindingsOfAll(cs: seq<Intent>, s: Schema): seq<Datum>
    decreases cs, 0
  {
    if cs == [] then [] else BindingsOfAll(cs[..|cs| - 1], s) + Bindings(cs[|cs| - 1], s)
  }

  /** A hop names a table and pairs at least one column with one column. */
  predicate Usable(hop: Hop) {
    hop.target != [] && hop.source != [] && |hop.source| == |hop.keys| && [] !in hop.source && [] !in hop.keys
  }

  /** Every relation is declared and usable, every field is named, and operators suit their operands. */
  predicate Compilable(c: Intent, s: Schema, table: string, hasOuter: bool)
    decreases c, 1
  {
    match c
    case Comparison(field, op, operand) =>
      field != [] &&
      (match operand
       case Literal(d) => d == Null ==> op == Eq || op == Neq || op == DistinctOp
       case Marked(_) => true
       case OuterField(column) => hasOuter && column != [] && LastDot(column) < 0)
    case NullCheck(field, _) => field != []
    case Range(field, _, _) => field != []
    case Membership(field, _, _) => field != []
    case And(cs) => AllCompilable(cs, s, table, hasOuter)
    case Or(cs) => AllCompilable(cs, s, table, hasOuter)
    case Negation(x) => Compilable(x, s, table, hasOuter)
    case Related(relation, _, where) =>
      s.model.Some? && Resolve(s.model.value, table, relation).Some? &&
      var hop := HopOf(Resolve(s.model.value, table, relation).value);
      Usable(hop) && CompilableOf(where, s, hop.target)
    case RelationFilter(path, mode, where) =>
      Hops(s, table, path).Some? &&
      if mode == Every && Vacuous(where) then s.model.Some?
      else
        var hops := Hops(s, table, path).value;
        && hops != []
        && (forall h | h in hops :: Usable(h))
        && CompilableOf(where, s, hops[|hops| - 1].target)
    case Via(hop, _, where) => Usable(hop) && CompilableOf(where, s, hop.target)
  }

  predicate CompilableOf(where: Option<Intent>, s: Schema, table: string)
    decreases where, 2
  {
    where.Some? ==> Compilable(where.value, s, table, true)
  }

  predicate AllCompilable(cs: seq<Intent>, s: Schema, table: string, hasOuter: bool)
    decreases cs, 0
  {
    cs != [] ==> AllCompilable(cs[..|cs| - 1], s, table, hasOuter) && Compilable(cs[|cs| - 1], s, table, hasOuter)
  }

  /** n more values can be bound: a statement takes 65535. */
  predicate Room(st: State, n: nat) { n > 0 ==> st.index + n <= 65535 }

  /** From a to b exactly these values were bound, each under the next number. */
  predicate Bound(a: State, b: State, values: seq<Datum>) {
    b.index == a.index + |values| && b.params == a.params + values
  }

  lemma {:induction false} PushAllRoom(st: State, ds: seq<Datum>)
    ensures PushAll(st, ds).Ok? <==> Room(st, |ds|)
  {
    if ds != [] {
      PushAllRoom(st, ds[..|ds| - 1]);
      if PushAll(st, ds[..|ds| - 1]).Ok? { PushAllBinds(st, ds[..|ds| - 1]); }
    }
  }

  lemma MembershipCompiles(c: Intent, s: Schema, ctx: Ctx, st: State)
    requires c.Membership?
    ensures Compile(c, s, ctx, st).Ok? <==> c.field != [] && Room(st, |Bindings(c, s)|)
    ensures Compile(c, s, ctx, st).Ok? ==> Bound(st, Compile(c, s, ctx, st).value.1, Bindings(c, s))
  {
    if c.values != [] && !s.supportsArrays {
      PushAllRoom(st, c.values);
      if PushAll(st, c.values).Ok? { PushAllBinds(st, c.values); }
    }
  }

  lemma CorrelationIsUsable(a: string, hop: Hop, alias: string)
    ensures hop.target != [] ==> (KeyCorrelation(a, hop.source, alias, hop.keys).Ok? <==> Usable(hop))
  {
  }

  /** What CompilesExactly says about one condition. */
  predicate Exact(c: Intent, s: Schema, ctx: Ctx, st: State) {
    && (Compile(c, s, ctx, st).Ok? <==> Compilable(c, s, ctx.rootTable, ctx.outer.Some?) && Room(st, |Bindings(c, s)|))
    && (Compile(c, s, ctx, st).Ok? ==> Bound(st, Compile(c, s, ctx, st).value.1, Bindings(c, s)))
  }

  /** A condition compiles exactly when it is compilable and its values fit, one number for each. */
  lemma {:induction false} CompilesExactly(c: Intent, s: Schema, ctx: Ctx, st: State)
    ensures Exact(c, s, ctx, st)
    decreases Size(c), 1
  {
    match c
    case Comparison(_, _, _) =>
    case NullCheck(_, _) =>
    case Range(_, _, _) =>
    case Membership(_, _, _) => MembershipCompiles(c, s, ctx, st);
    case And(cs) => CompilesAllExactly(cs, s, ctx, st);
    case Or(cs) => CompilesAllExactly(cs, s, ctx, st);
    case Negation(x) => CompilesExactly(x, s, ctx, st);
    case Related(_, _, _) => RelatedExactly(c, s, ctx, st);
    case RelationFilter(_, _, _) => FilterExactly(c, s, ctx, st);
    case Via(_, _, _) => ViaExactly(c, s, ctx, st);
  }

  lemma {:induction false} CompilesAllExactly(cs: seq<Intent>, s: Schema, ctx: Ctx, st: State)
    ensures CompileAll(cs, s, ctx, st).Ok?
            <==> AllCompilable(cs, s, ctx.rootTable, ctx.outer.Some?) && Room(st, |BindingsOfAll(cs, s)|)
    ensures CompileAll(cs, s, ctx, st).Ok? ==>
      Bound(st, CompileAll(cs, s, ctx, st).value.1, BindingsOfAll(cs, s))
    decreases SizeAll(cs), 2, |cs|
  {
    if cs != [] {
      CompilesAllExactly(cs[..|cs| - 1], s, ctx, st);
      if CompileAll(cs[..|cs| - 1], s, ctx, st).Ok? {
        CompilesExactly(cs[|cs| - 1], s, ctx, CompileAll(cs[..|cs| - 1], s, ctx, st).value.1);
      }
    }
  }

  lemma {:induction false} RelatedExactly(c: Intent, s: Schema, ctx: Ctx, st: State)
    requires c.Related?
    ensures Exact(c, s, ctx, st)
    decreases Size(c), 0
  {
    if s.model.Some? && Resolve(s.model.value, ctx.rootTable, c.relation).Some? {
      var via := Via(HopOf(Resolve(s.model.value, ctx.rootTable, c.relation).value), c.negated, c.where);
      CompilesExactly(via, s, ctx, st);
      RelatedIsVia(c, s, ctx.rootTable, ctx.outer.Some?);
      assert Compile(c, s, ctx, st) == Compile(via, s, ctx, st);
    }
  }

  lemma RelatedIsVia(c: Intent, s: Schema, table: string, hasOuter: bool)
    requires c.Related? && s.model.Some? && Resolve(s.model.value, table, c.relation).Some?
    ensures var via := Via(HopOf(Resolve(s.model.value, table, c.relation).value), c.negated, c.where);
      Compilable(via, s, table, hasOuter) == Compilable(c, s, table, hasOuter) && Bindings(via, s) == Bindings(c, s)
  {
  }

  lemma {:induction false} NestIsCompilable(hops: seq<Hop>, negated: bool, where: Option<Intent>, s: Schema,
      table: string, hasOuter: bool)
    requires hops != []
    ensures Compilable(Nest(hops, negated, where), s, table, hasOuter)
            <==> (forall h | h in hops :: Usable(h)) && CompilableOf(where, s, hops[|hops| - 1].target)
    ensures Bindings(Nest(hops, negated, where), s) == BindingsOf(where, s)
    decreases |hops|
  {
    if |hops| == 1 {
      assert hops == [hops[0]];
    } else {
      var inner := Nest(hops[1..], false, where);
      NestIsCompilable(hops[1..], false, where, s, hops[0].target, true);
      assert hops == [hops[0]] + hops[1..];
      assert CompilableOf(Some(inner), s, hops[0].target) == Compilable(inner, s, hops[0].target, true);
      assert BindingsOf(Some(inner), s) == Bindings(inner, s);
    }
  }

  lemma {:induction false} FilterExactly(c: Intent, s: Schema, ctx: Ctx, st: State)
    requires c.RelationFilter?
    ensures Exact(c, s, ctx, st)
    decreases Size(c), 0
  {
    if c.mode == Every && Vacuous(c.where) {
      VacuousExactly(c, s, ctx, st);
    } else if Hops(s, ctx.rootTable, c.path).Some? {
      var hops := Hops(s, ctx.rootTable, c.path).value;
      FilterLowers(c, s, ctx, st);
      CompilesExactly(Nest(hops, c.mode != AtLeastOne, Innermost(c.mode, c.where)), s, ctx, st);
      NestMatchesFilter(c, hops, s, ctx.rootTable, ctx.outer.Some?);
    }
  }

  lemma FilterLowers(c: Intent, s: Schema, ctx: Ctx, st: State)
    requires c.RelationFilter? && !(c.mode == Every && Vacuous(c.where)) && Hops(s, ctx.rootTable, c.path).Some?
    ensures var hops := Hops(s, ctx.rootTable, c.path).value;
      hops != [] &&
      var nest := Nest(hops, c.mode != AtLeastOne, Innermost(c.mode, c.where));
      Size(nest) < Size(c) && Compile(c, s, ctx, st) == Compile(nest, s, ctx, st)
  {
    HopsNonEmpty(s, ctx.rootTable, c.path);
  }

  lemma NestMatchesFilter(c: Intent, hops: seq<Hop>, s: Schema, table: string, hasOuter: bool)
    requires c.RelationFilter? && !(c.mode == Every && Vacuous(c.where))
    requires hops != [] && Hops(s, table, c.path) == Some(hops)
    ensures var nest := Nest(hops, c.mode != AtLeastOne, Innermost(c.mode, c.where));
      Bindings(nest, s) == Bindings(c, s) && Compilable(nest, s, table, hasOuter) == Compilable(c, s, table, hasOuter)
  {
    var inner := Innermost(c.mode, c.where);
    NestIsCompilable(hops, c.mode != AtLeastOne, inner, s, table, hasOuter);
    assert CompilableOf(inner, s, hops[|hops| - 1].target) == CompilableOf(c.where, s, hops[|hops| - 1].target);
    assert BindingsOf(inner, s) == BindingsOf(c.where, s);
  }

  lemma VacuousExactly(c: Intent, s: Schema, ctx: Ctx, st: State)
    requires c.RelationFilter? && c.mode == Every && Vacuous(c.where)
    ensures Exact(c, s, ctx, st)
  {
    assert c.where.Some? ==> Bindings(c.where.value, s) == BindingsOfAll([], s) == [];
    assert Bindings(c, s) == BindingsOf(c.where, s) == [];
  }

  lemma {:induction false} ViaExactly(c: Intent, s: Schema, ctx: Ctx, st: State)
    requires c.Via?
    ensures Exact(c, s, ctx, st)
    decreases Size(c), 0
  {
    var alias := ExistsAlias(c.hop, ctx, st);
    if c.where.None? {
      PlainHopExactly(c, s, ctx, st);
    } else {
      assert Size(c) == 1 + SizeOpt(c.where) == 1 + Size(c.where.value);
      CompilesExactly(c.where.value, s, InnerCtx(c.hop, alias, ctx), WithAlias(st, alias));
      InnerExactly(c, s, ctx, st);
    }
  }

  /** A hop without a condition compiles exactly when it is usable, and binds nothing. */
  lemma PlainHopResult(hop: Hop, negated: bool, s: Schema, ctx: Ctx, st: State)
    ensures var r := Compile(Via(hop, negated, None), s, ctx, st);
      (r.Ok? <==> Usable(hop)) && (r.Ok? ==> r.value.1 == WithAlias(st, ExistsAlias(hop, ctx, st)))
  {
    CorrelationIsUsable(ctx.alias, hop, ExistsAlias(hop, ctx, st));
  }

  lemma PlainHopExactly(c: Intent, s: Schema, ctx: Ctx, st: State)
    requires c.Via? && c.where.None?
    ensures Exact(c, s, ctx, st)
  {
    PlainHopResult(c.hop, c.negated, s, ctx, st);
    assert c == Via(c.hop, c.negated, None);
    assert CompilableOf(None, s, c.hop.target) && Bindings(c, s) == BindingsOf(None, s) == [];
    assert st.params + [] == st.params;
  }

  /** A usable hop compiles exactly when its inner condition does, to the same state. */
  lemma HopResult(c: Intent, s: Schema, ctx: Ctx, st: State)
    requires c.Via? && c.where.Some?
    ensures var alias := ExistsAlias(c.hop, ctx, st);
      var inner := Compile(c.where.value, s, InnerCtx(c.hop, alias, ctx), WithAlias(st, alias));
      && (Compile(c, s, ctx, st).Ok? <==> Usable(c.hop) && inner.Ok?)
      && (Compile(c, s, ctx, st).Ok? ==> Compile(c, s, ctx, st).value.1 == inner.value.1)
  {
    CorrelationIsUsable(ctx.alias, c.hop, ExistsAlias(c.hop, ctx, st));
  }

  lemma InnerExactly(c: Intent, s: Schema, ctx: Ctx, st: State)
    requires c.Via? && c.where.Some?
    requires var alias := ExistsAlias(c.hop, ctx, st);
      Exact(c.where.value, s, InnerCtx(c.hop, alias, ctx), WithAlias(st, alias))
    ensures Exact(c, s, ctx, st)
  {
    HopResult(c, s, ctx, st);
    assert CompilableOf(c.where, s, c.hop.target) == Compilable(c.where.value, s, c.hop.target, true);
    assert Bindings(c, s) == BindingsOf(c.where, s) == Bindings(c.where.value, s);
  }

  // --- junction tables -----------------------------------------------------------------------------

  /** The relation that the i-th hop of a path follows, if all hops up to it are declared. */
  function RelationAt(m: Model, table: string, path: seq<string>, i: nat): Option<Relation>
    requires i < |path|
    decreases path
  {
    var first := Resolve(m, table, path[0]);
    if first.None? || i == 0 then first else RelationAt(m, first.value.target, path[1..], i - 1)
  }

  predicate FollowsForeignKey(r: Option<Relation>) { r.Some? && r.value.kind != BelongsToMany }

  /** The check walks to the end of a path exactly when every hop is declared and none is many-to-many. */
  lemma {:induction false} WalkIsExact(m: Model, table: string, path: seq<string>)
    ensures WalkPath(m, table, path).Ends? <==>
      forall i | 0 <= i < |path| :: FollowsForeignKey(RelationAt(m, table, path, i))
    decreases path
  {
    if path != [] {
      var first := Resolve(m, table, path[0]);
      assert RelationAt(m, table, path, 0) == first;
      if FollowsForeignKey(first) {
        var rest := path[1..];
        var target := first.value.target;
        WalkIsExact(m, target, rest);
        if WalkPath(m, table, path).Ends? {
          forall i | 0 <= i < |path| ensures FollowsForeignKey(RelationAt(m, table, path, i)) {
            if i > 0 {
              LaterRelation(m, table, path, i);
              assert FollowsForeignKey(RelationAt(m, target, rest, i - 1));
            }
          }
        } else {
          var j :| 0 <= j < |rest| && !FollowsForeignKey(RelationAt(m, target, rest, j));
          LaterRelation(m, table, path, j + 1);
          assert !FollowsForeignKey(RelationAt(m, table, path, j + 1));
        }
      } else {
        assert !FollowsForeignKey(RelationAt(m, table, path, 0));
      }
    }
  }

  lemma LaterRelation(m: Model, table: string, path: seq<string>, i: nat)
    requires 0 < i < |path| && Resolve(m, table, path[0]).Some?
    ensures RelationAt(m, table, path, i) == RelationAt(m, Resolve(m, table, path[0]).value.target, path[1..], i - 1)
  {
  }

  lemma {:induction false} ResolvedAt(m: Model, table: string, path: seq<string>, i: nat)
    requires i < |path| && ResolvePath(m, table, path).Some?
    ensures RelationAt(m, table, path, i).Some?
    ensures |ResolvePath(m, table, path).value| == |path|
    ensures ResolvePath(m, table, path).value[i] == HopOf(RelationAt(m, table, path, i).value)
    decreases path
  {
    ResolvedLength(m, table, path);
    if i > 0 { ResolvedAt(m, Resolve(m, table, path[0]).value.target, path[1..], i - 1); }
  }

  /**
   With a model, a relation filter that compiles follows a declared foreign key at every hop: for belongsTo
   the foreign key stands on the source's side and the referenced key on the target's, otherwise the other
   way round.
   */
  lemma FilterFollowsForeignKeys(c: Intent, s: Schema, ctx: Ctx, st: State, i: nat)
    requires c.RelationFilter? && s.model.Some? && i < |c.path| && CompileCondition(c, s, ctx, st).Ok?
    ensures FollowsForeignKey(RelationAt(s.model.value, ctx.rootTable, c.path, i))
    ensures Hops(s, ctx.rootTable, c.path).Some? && i < |Hops(s, ctx.rootTable, c.path).value|
    ensures var r := RelationAt(s.model.value, ctx.rootTable, c.path, i).value;
      var hop := Hops(s, ctx.rootTable, c.path).value[i];
      && hop.target == r.target
      && hop.source == (if r.kind == BelongsTo then r.foreignKey else r.referencedKey)
      && hop.keys == (if r.kind == BelongsTo then r.referencedKey else r.foreignKey)
  {
    var m := s.model.value;
    CompilesExactly(c, s, ctx, st);
    ResolvedAt(m, ctx.rootTable, c.path, i);
    WalkEndsOrCrosses(m, ctx.rootTable, c.path);
    WalkIsExact(m, ctx.rootTable, c.path);
  }

  lemma {:induction false} WalkEndsOrCrosses(m: Model, table: string, path: seq<string>)
    requires ResolvePath(m, table, path).Some?
    ensures !WalkPath(m, table, path).Stops?
    decreases path
  {
    if path != [] {
      WalkEndsOrCrosses(m, Resolve(m, table, path[0]).value.target, path[1..]);
    }
  }

  /**
   Compilation succeeds exactly when every relation is declared on its table and usable, fields
   and operators are well formed, the values fit below the protocol limit, and, with a model, no
   relation crosses a junction table. Success binds exactly the condition's values, in
   order, one number for each.
   */
  lemma AcceptedExactly(c: Intent, s: Schema, ctx: Ctx, st: State)
    ensures CompileCondition(c, s, ctx, st).Ok? <==>
      && Compilable(c, s, ctx.rootTable, ctx.outer.Some?)
      && Room(st, |Bindings(c, s)|)
      && (s.model.Some? ==> !CrossesManyToMany(c, s.model.value, ctx.rootTable))
    ensures CompileCondition(c, s, ctx, st).Ok? ==>
      Bound(st, CompileCondition(c, s, ctx, st).value.1, Bindings(c, s))
  {
    CompilesExactly(c, s, ctx, st);
  }
}
