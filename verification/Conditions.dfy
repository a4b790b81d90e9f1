/**
 Condition intents, what they mean, and how packages/adapter-pgsql/src/condition-compiler-factory.ts
 lowers them to AST nodes for a root WHERE while threading the parameter state.
 */
module Conditions {
  import opened Common
  import opened Ast
  import opened Semantics
  import Aliases

  // --- intents -----------------------------------------------------------------------------

  datatype CompareOp = Eq | Neq | Lt | Lte | Gt | Gte | DistinctOp

  /** The right side of a comparison: a literal, a value marked with param(), or an outer column. */
  datatype Operand = Literal(value: Datum) | Marked(value: Datum) | OuterField(column: string)

  datatype Mode = AtLeastOne | NoneOf | Every

  datatype Intent =
    | Comparison(field: string, op: CompareOp, operand: Operand)
    | NullCheck(field: string, isNull: bool)
    | Range(field: string, low: Datum, high: Datum)
    | Membership(field: string, negated: bool, values: seq<Datum>)
    | And(conditions: seq<Intent>)
    | Or(conditions: seq<Intent>)
    | Negation(condition: Intent)
    | Related(relation: string, negated: bool, where: Option<Intent>)
    | RelationFilter(path: seq<string>, mode: Mode, where: Option<Intent>)
    | Via(hop: Hop, negated: bool, where: Option<Intent>)  // internal: a relation already resolved

  // --- the schema ----------------------------------------------------------------------------

  datatype RelationKind = BelongsTo | HasMany | HasOne | BelongsToMany

  datatype Relation = Relation(name: string, kind: RelationKind, target: string,
                               foreignKey: seq<string>, referencedKey: seq<string>)

  type Model = map<string, seq<Relation>>

  /** A relation with the columns that correlate the two sides. */
  datatype Hop = Hop(target: string, source: seq<string>, keys: seq<string>)

  /** The model if there is one, the foreign-key naming convention, and the dialect. */
  datatype Schema = Schema(model: Option<Model>, derive: string -> string, supportsArrays: bool)

  function Declared(rs: seq<Relation>, name: string): Option<Relation> {
    if rs == [] then None else if rs[0].name == name then Some(rs[0]) else Declared(rs[1..], name)
  }

  function Targeting(rs: seq<Relation>, table: string): seq<Relation> {
    if rs == [] then []
    else (if rs[0].target == table then [rs[0]] else []) + Targeting(rs[1..], table)
  }

  /** A declared relation by name, or the only relation to a table of that name. */
  function Resolve(m: Model, source: string, name: string): Option<Relation> {
    var rs := if source in m then m[source] else [];
    match Declared(rs, name)
    case Some(r) => Some(r)
    case None =>
      var ts := Targeting(rs, name);
      if |ts| == 1 then Some(ts[0]) else None
  }

  /** The foreign key lives on the source for belongsTo and on the target otherwise. */
  function HopOf(r: Relation): Hop {
    if r.kind == BelongsTo then Hop(r.target, r.foreignKey, r.referencedKey)
    else Hop(r.target, r.referencedKey, r.foreignKey)
  }

  /** Every hop of a path, from a table on; None if one is not declared. */
  function ResolvePath(m: Model, source: string, path: seq<string>): Option<seq<Hop>>
    decreases path
  {
    if path == [] then Some([])
    else
      match Resolve(m, source, path[0])
      case None => None
      case Some(r) =>
        match ResolvePath(m, r.target, path[1..])
        case None => None
        case Some(hops) => Some([HopOf(r)] + hops)
  }

  /** Without a model a single relation correlates by convention; a longer path cannot be resolved. */
  function Hops(s: Schema, table: string, path: seq<string>): Option<seq<Hop>> {
    if path == [] then None
    else
      match s.model
      case Some(m) => ResolvePath(m, table, path)
      case None => if |path| == 1 then Some([Hop(path[0], ["id"], [s.derive(table)])]) else None
  }

  // --- meaning -------------------------------------------------------------------------------

  function LastDot(field: string): (i: int)
    ensures -1 <= i < |field|
    ensures i >= 0 ==> field[i] == '.'
    ensures forall j :: i < j < |field| ==> field[j] != '.'
  {
    if field == [] then -1
    else if field[|field| - 1] == '.' then |field| - 1
    else LastDot(field[..|field| - 1])
  }

  /** The rows in scope: the current one, the enclosing query's, and those with a name. */
  datatype Scope = Scope(table: string, row: Row, outer: Option<Row>, named: map<string, Row>)

  /** A dotted field addresses a named range, any other field the current row. */
  function FieldValue(field: string, sc: Scope): Datum {
    var i := LastDot(field);
    if i < 0 then Cell(sc.row, field)
    else if field[..i] in sc.named then Cell(sc.named[field[..i]], field[i + 1..])
    else Null
  }

  /** What each operator asks of two values. */
  function CompareMeaning(w: World, op: CompareOp, a: Datum, b: Datum): Truth {
    match op
    case Eq => Compare(w, "=", a, b)
    case Neq => Compare(w, "<>", a, b)
    case Lt => Compare(w, "<", a, b)
    case Lte => Compare(w, "<=", a, b)
    case Gt => Compare(w, ">", a, b)
    case Gte => Compare(w, ">=", a, b)
    case DistinctOp => IsDistinct(w, a, b)
  }

  /** Rows a and b agree on all key columns. */
  ghost predicate Correlated(w: World, a: Row, h: Hop, b: Row) {
    |h.source| == |h.keys| &&
    forall i :: 0 <= i < |h.source| ==> Compare(w, "=", Cell(a, h.source[i]), Cell(b, h.keys[i])) == True
  }

  /** p is a row for each hop, each reached from the one before it. */
  ghost predicate Reaches(w: World, from: Row, hops: seq<Hop>, p: seq<Row>)
    ensures Reaches(w, from, hops, p) ==> |p| == |hops|
    decreases hops
  {
    if hops == [] then p == []
    else
      p != [] && p[0] in Rows(w, hops[0].target) && Correlated(w, from, hops[0], p[0]) &&
      Reaches(w, p[0], hops[1..], p[1..])
  }

  /** The scope a condition at the end of a path is read in. */
  function EndScope(sc: Scope, hops: seq<Hop>, p: seq<Row>): Scope
    requires |hops| == |p| > 0
  {
    var n := |p|;
    Scope(hops[n - 1].target, p[n - 1], Some(if n == 1 then sc.row else p[n - 2]), sc.named)
  }

  ghost function Meaning(c: Intent, s: Schema, w: World, sc: Scope): Truth
    decreases c, 1
  {
    match c
    case Comparison(field, op, operand) =>
      var v := FieldValue(field, sc);
      (match operand
       case Literal(Null) =>
         if op == Eq then IfTrue(v == Null)
         else if op == Neq || op == DistinctOp then IfTrue(v != Null)
         else Unknown
       case Literal(d) => CompareMeaning(w, op, v, d)
       case Marked(d) => CompareMeaning(w, op, v, d)
       case OuterField(column) =>
         if sc.outer.None? then Unknown else CompareMeaning(w, op, v, Cell(sc.outer.value, column)))
    case NullCheck(field, isNull) => IfTrue((FieldValue(field, sc) == Null) == isNull)
    case Range(field, low, high) =>
      var v := FieldValue(field, sc);
      Conj({Compare(w, ">=", v, low), Compare(w, "<=", v, high)})
    case Membership(field, negated, values) =>
      var t := AnyOf(w, "=", FieldValue(field, sc), values);
      if negated then Semantics.Not(t) else t
    case And(conditions) => Conj(Meanings(conditions, s, w, sc))
    case Or(conditions) => Disj(Meanings(conditions, s, w, sc))
    case Negation(condition) => Semantics.Not(Meaning(condition, s, w, sc))
    case Related(relation, negated, where) =>
      (match Hops(s, sc.table, [relation])
       case None => Unknown
       case Some(hops) =>
         IfTrue(negated != exists p | Reaches(w, sc.row, hops, p) && |p| > 0 ::
           where.Some? ==> Meaning(where.value, s, w, EndScope(sc, hops, p)) == True))
    case RelationFilter(path, mode, where) =>
      (match Hops(s, sc.table, path)
       case None => Unknown
       case Some(hops) =>
         match mode
         // some row at the end of the path makes the condition true
         case AtLeastOne =>
           IfTrue(exists p | Reaches(w, sc.row, hops, p) && |p| > 0 ::
             where.Some? ==> Meaning(where.value, s, w, EndScope(sc, hops, p)) == True)
         // no row at the end of the path makes it true
         case NoneOf =>
           IfTrue(forall p | Reaches(w, sc.row, hops, p) && |p| > 0 ::
             where.Some? && Meaning(where.value, s, w, EndScope(sc, hops, p)) != True)
         // no row at the end of the path makes it false
         case Every =>
           IfTrue(forall p | Reaches(w, sc.row, hops, p) && |p| > 0 ::
             where.Some? ==> Meaning(where.value, s, w, EndScope(sc, hops, p)) != False))
    case Via(hop, negated, where) =>
      IfTrue(negated != exists r | r in Rows(w, hop.target) && Correlated(w, sc.row, hop, r) ::
        where.Some? ==> Meaning(where.value, s, w, Scope(hop.target, r, Some(sc.row), sc.named)) == True)
  }

  ghost function Meanings(cs: seq<Intent>, s: Schema, w: World, sc: Scope): set<Truth>
    decreases cs, 0
  {
    if cs == [] then {}
    else Meanings(cs[..|cs| - 1], s, w, sc) + {Meaning(cs[|cs| - 1], s, w, sc)}
  }

  // --- compilation -----------------------------------------------------------------------------

  datatype Error =
    | MissingColumn | NullOperator | NoOuterRange | ParameterLimit | NoModel | UndeclaredRelation
    | ManyToMany | BadCorrelation | MissingTarget | QualifiedOuter

  /** The mutable parameter state as a value. */
  datatype State = State(index: nat, params: seq<Datum>, aliases: map<string, string>)

  /** Where a condition is compiled: its table, the qualifier rows of that table have, the
      enclosing query's qualifier, and every qualifier in SQL scope. */
  datatype Ctx = Ctx(rootTable: string, alias: string, outer: Option<string>, scope: set<string>)

  type Compiled = Result<(Node, State), Error>

  function ColumnOf(field: string, ctx: Ctx): Node {
    var i := LastDot(field);
    if i < 0 then Column([ctx.alias, field]) else Column([field[..i], field[i + 1..]])
  }

  const MAX_PARAM := 65535

  /** Number the next placeholder and record its value. */
  function Push(st: State, d: Datum): Compiled {
    if st.index + 1 > MAX_PARAM then Err(ParameterLimit)
    else Ok((Param(st.index + 1), st.(index := st.index + 1, params := st.params + [d])))
  }

  /** How an operator is written. */
  function OpText(op: CompareOp): string {
    match op
    case Eq => "=" case Neq => "<>" case Lt => "<" case Lte => "<=" case Gt => ">" case Gte => ">="
    case DistinctOp => "="
  }

  function CompareNode(op: CompareOp, text: string, left: Node, right: Node): Node {
    if op == DistinctOp then DistinctFrom(left, right) else Binary(text, left, right)
  }

  function CompileComparison(field: string, op: CompareOp, operand: Operand, ctx: Ctx, st: State): Compiled {
    var left := ColumnOf(field, ctx);
    if field == [] then Err(MissingColumn)
    else
      match operand
      case Literal(Null) =>
        if op == Eq then Ok((NullTest(left, true), st))
        else if op == Neq then Ok((NullTest(left, false), st))
        else if op == DistinctOp then Ok((DistinctFrom(left, NullConst), st))
        else Err(NullOperator)
      case Literal(d) => CompareWithValue(op, left, d, st)
      case Marked(d) => CompareWithValue(op, left, d, st)
      case OuterField(column) =>
        if ctx.outer.None? then Err(NoOuterRange)
        else if column == [] then Err(MissingColumn)
        else if LastDot(column) >= 0 then Err(QualifiedOuter)
        else Ok((CompareNode(op, if op == Neq then "!=" else OpText(op), left, Column([ctx.outer.value, column])), st))
  }

  function CompareWithValue(op: CompareOp, left: Node, d: Datum, st: State): Compiled {
    match Push(st, d)
    case Err(e) => Err(e)
    case Ok((right, st1)) => Ok((CompareNode(op, OpText(op), left, right), st1))
  }

  function CompileRange(field: string, low: Datum, high: Datum, ctx: Ctx, st: State): Compiled {
    if field == [] then Err(MissingColumn)
    else
      match Push(st, low)
      case Err(e) => Err(e)
      case Ok((lowNode, st1)) =>
        match Push(st1, high)
        case Err(e) => Err(e)
        case Ok((highNode, st2)) => Ok((Between(false, ColumnOf(field, ctx), lowNode, highNode), st2))
  }

  function PushAll(st: State, ds: seq<Datum>): Result<(seq<Node>, State), Error> {
    if ds == [] then Ok(([], st))
    else
      match PushAll(st, ds[..|ds| - 1])
      case Err(e) => Err(e)
      case Ok((nodes, st1)) =>
        match Push(st1, ds[|ds| - 1])
        case Err(e) => Err(e)
        case Ok((node, st2)) => Ok((nodes + [node], st2))
  }

  function CompileMembership(field: string, negated: bool, values: seq<Datum>, s: Schema, ctx: Ctx, st: State)
    : Compiled
  {
    var left := ColumnOf(field, ctx);
    if field == [] then Err(MissingColumn)
    else if values == [] then Ok((BoolConst(negated), st))
    else if s.supportsArrays then
      match Push(st, ArrayVal(values))
      case Err(e) => Err(e)
      case Ok((list, st1)) => Ok((Quantified(if negated then "<>" else "=", negated, left, list), st1))
    else
      match PushAll(st, values)
      case Err(e) => Err(e)
      case Ok((items, st1)) => Ok((InList(negated, left, items), st1))
  }

  /** Column equalities between two qualifiers, conjoined when there are several. */
  function Equalities(a: string, source: seq<string>, b: string, keys: seq<string>): (r: seq<Node>)
    requires |source| == |keys|
    ensures |r| == |source|
    ensures forall i :: 0 <= i < |r| ==> r[i] == Binary("=", Column([a, source[i]]), Column([b, keys[i]]))
  {
    seq(|source|, i requires 0 <= i < |source| => Binary("=", Column([a, source[i]]), Column([b, keys[i]])))
  }

  function KeyCorrelation(a: string, source: seq<string>, b: string, keys: seq<string>): Result<Node, Error> {
    if source == [] || |source| != |keys| || [] in source || [] in keys then Err(BadCorrelation)
    else if |source| == 1 then Ok(Equalities(a, source, b, keys)[0])
    else Ok(BoolExpr(AndExpr, Equalities(a, source, b, keys)))
  }

  /** The qualifiers a new alias must avoid. */
  function InUse(ctx: Ctx, st: State): set<string> {
    {ctx.alias, ctx.rootTable} + (if ctx.outer.Some? then {ctx.outer.value} else {}) + ctx.scope +
    st.aliases.Keys + st.aliases.Values
  }

  function ExistsAlias(hop: Hop, ctx: Ctx, st: State): string {
    Aliases.FreshExists(hop.target, InUse(ctx, st), |st.aliases|)
  }

  function WithAlias(st: State, alias: string): State { st.(aliases := st.aliases[alias := alias]) }

  function InnerCtx(hop: Hop, alias: string, ctx: Ctx): Ctx {
    Ctx(hop.target, alias, Some(ctx.alias), ctx.scope + {ctx.alias, alias})
  }

  function Size(c: Intent): nat
    decreases c, 1
  {
    match c
    case And(cs) => 1 + SizeAll(cs)
    case Or(cs) => 1 + SizeAll(cs)
    case Negation(x) => 1 + Size(x)
    case Related(_, _, where) => 3 + SizeOpt(where)
    case RelationFilter(path, _, where) => 4 + |path| + SizeOpt(where)
    case Via(_, _, where) => 1 + SizeOpt(where)
    case _ => 1
  }

  function SizeOpt(c: Option<Intent>): nat
    decreases c, 2
  {
    if c.None? then 0 else Size(c.value)
  }

  function SizeAll(cs: seq<Intent>): nat
    decreases cs, 0
  {
    if cs == [] then 0 else SizeAll(cs[..|cs| - 1]) + Size(cs[|cs| - 1])
  }

  /** The chain of nested EXISTS for a resolved path: only the outermost may be negated. */
  function Nest(hops: seq<Hop>, negated: bool, where: Option<Intent>): (r: Intent)
    requires hops != []
    ensures Size(r) == |hops| + SizeOpt(where)
    decreases |hops|
  {
    Via(hops[0], negated, if |hops| == 1 then where else Some(Nest(hops[1..], false, where)))
  }

  /** No condition at all, or an empty conjunction: every row satisfies it. */
  predicate Vacuous(where: Option<Intent>) {
    where.None? || (where.value.And? && where.value.conditions == [])
  }

  /** The condition on the last table of a path: `every` looks for a row that fails it. */
  function Innermost(mode: Mode, where: Option<Intent>): (r: Option<Intent>)
    ensures SizeOpt(r) <= 1 + SizeOpt(where)
  {
    if mode == Every && where.Some? then Some(Negation(where.value)) else where
  }

  /** Why a relation filter's path cannot be followed, if it cannot. */
  function PathError(s: Schema, path: seq<string>, vacuousEvery: bool): Error {
    if s.model.None? && path != [] then (if vacuousEvery || |path| > 1 then NoModel else UndeclaredRelation)
    else UndeclaredRelation
  }

  function Compile(c: Intent, s: Schema, ctx: Ctx, st: State): Compiled
    decreases Size(c), 1
  {
    match c
    case Comparison(field, op, operand) => CompileComparison(field, op, operand, ctx, st)
    case NullCheck(field, isNull) =>
      if field == [] then Err(MissingColumn) else Ok((NullTest(ColumnOf(field, ctx), isNull), st))
    case Range(field, low, high) => CompileRange(field, low, high, ctx, st)
    case Membership(field, negated, values) => CompileMembership(field, negated, values, s, ctx, st)
    case And(cs) => Wrap(AndExpr, CompileAll(cs, s, ctx, st))
    case Or(cs) => Wrap(OrExpr, CompileAll(cs, s, ctx, st))
    case Negation(x) => Negated(true, Compile(x, s, ctx, st))
    case Related(relation, negated, where) =>
      (match s.model
       case None => Err(NoModel)
       case Some(m) =>
         match Resolve(m, ctx.rootTable, relation)
         case None => Err(UndeclaredRelation)
         case Some(r) => Compile(Via(HopOf(r), negated, where), s, ctx, st))
    case RelationFilter(path, mode, where) =>
      var vacuousEvery := mode == Every && Vacuous(where);
      (match Hops(s, ctx.rootTable, path)
       case None => Err(PathError(s, path, vacuousEvery))
       case Some(hops) =>
         if vacuousEvery then (if s.model.None? then Err(NoModel) else Ok((BoolConst(true), st)))
         else
           HopsNonEmpty(s, ctx.rootTable, path);
           Compile(Nest(hops, mode != AtLeastOne, Innermost(mode, where)), s, ctx, st))
    case Via(hop, negated, where) =>
      if hop.target == [] then Err(MissingTarget)
      else
        var alias := ExistsAlias(hop, ctx, st);
        var st1 := WithAlias(st, alias);
        match KeyCorrelation(ctx.alias, hop.source, alias, hop.keys)
        case Err(e) => Err(e)
        case Ok(correlation) =>
          match where
          case None => Negated(negated, Ok((Exists(hop.target, alias, correlation), st1)))
          case Some(inner) =>
            assert Size(c) == 1 + SizeOpt(where) == 1 + Size(inner);
            match Compile(inner, s, InnerCtx(hop, alias, ctx), st1)
            case Err(e) => Err(e)
            case Ok((node, st2)) =>
              Negated(negated, Ok((Exists(hop.target, alias, BoolExpr(AndExpr, [correlation, node])), st2)))
  }

  function Negated(negated: bool, r: Compiled): Compiled {
    if !negated then r
    else
      match r
      case Err(e) => Err(e)
      case Ok((node, st)) => Ok((BoolExpr(NotExpr, [node]), st))
  }

  /** An empty list is a constant and a list of one is its element. */
  function Wrap(op: BoolOp, r: Result<(seq<Node>, State), Error>): Compiled {
    match r
    case Err(e) => Err(e)
    case Ok((nodes, st)) =>
      if nodes == [] then Ok((BoolConst(op == AndExpr), st))
      else if |nodes| == 1 then Ok((nodes[0], st))
      else Ok((BoolExpr(op, nodes), st))
  }

  function CompileAll(cs: seq<Intent>, s: Schema, ctx: Ctx, st: State): Result<(seq<Node>, State), Error>
    decreases SizeAll(cs), 2, |cs|
  {
    if cs == [] then Ok(([], st))
    else
      match CompileAll(cs[..|cs| - 1], s, ctx, st)
      case Err(e) => Err(e)
      case Ok((nodes, st1)) =>
        match Compile(cs[|cs| - 1], s, ctx, st1)
        case Err(e) => Err(e)
        case Ok((node, st2)) => Ok((nodes + [node], st2))
  }

  lemma HopsNonEmpty(s: Schema, table: string, path: seq<string>)
    requires Hops(s, table, path).Some?
    ensures |Hops(s, table, path).value| == |path| > 0
  {
    if s.model.Some? { ResolvedLength(s.model.value, table, path); }
  }

  lemma {:induction false} ResolvedLength(m: Model, table: string, path: seq<string>)
    requires ResolvePath(m, table, path).Some?
    ensures |ResolvePath(m, table, path).value| == |path|
    decreases path
  {
    if path != [] {
      ResolvedLength(m, Resolve(m, table, path[0]).value.target, path[1..]);
    }
  }

  // --- the entry point -----------------------------------------------------------------------

  /** Follows a path for the many-to-many check: the table it ends at, None where it stops. */
  datatype Walk = Ends(table: string) | Stops | CrossesJunction

  function WalkPath(m: Model, table: string, path: seq<string>): Walk
    decreases path
  {
    if path == [] then Ends(table)
    else
      match Resolve(m, table, path[0])
      case None => Stops
      case Some(r) => if r.kind == BelongsToMany then CrossesJunction else WalkPath(m, r.target, path[1..])
  }

  /** `assertNoManyToManyRootRelations`: some relation predicate crosses a junction table. */
  predicate CrossesManyToMany(c: Intent, m: Model, table: string)
    decreases c
  {
    match c
    case And(cs) => exists i | 0 <= i < |cs| :: CrossesManyToMany(cs[i], m, table)
    case Or(cs) => exists i | 0 <= i < |cs| :: CrossesManyToMany(cs[i], m, table)
    case Negation(x) => CrossesManyToMany(x, m, table)
    case Related(relation, _, where) =>
      var walk := WalkPath(m, table, [relation]);
      walk.CrossesJunction? || (walk.Ends? && where.Some? && CrossesManyToMany(where.value, m, walk.table))
    case RelationFilter(path, _, where) =>
      var walk := WalkPath(m, table, path);
      walk.CrossesJunction? || (walk.Ends? && where.Some? && CrossesManyToMany(where.value, m, walk.table))
    case _ => false
  }

  function CompileCondition(c: Intent, s: Schema, ctx: Ctx, st: State): Compiled {
    if s.model.Some? && CrossesManyToMany(c, s.model.value, ctx.rootTable) then Err(ManyToMany)
    else Compile(c, s, ctx, st)
  }
}
