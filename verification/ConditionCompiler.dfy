/**
 The condition compiler as the factory runs it: one mutable parameter state, loops over the
 parts of a condition, and a chain of EXISTS intents rebuilt from the last hop to the first.
 */
module ConditionCompiler {
  import opened Common
  import opened Ast
  import opened Conditions
  import Aliases

  lemma {:induction false} PartIsSmaller(cs: seq<Intent>, i: nat)
    requires i < |cs|
    ensures Size(cs[i]) <= SizeAll(cs)
  {
    if i < |cs| - 1 { PartIsSmaller(cs[..|cs| - 1], i); }
  }

  lemma {:induction false} FailsEarly(cs: seq<Intent>, i: nat, s: Schema, ctx: Ctx, st: State)
    requires i <= |cs| && CompileAll(cs[..i], s, ctx, st).Err?
    ensures CompileAll(cs, s, ctx, st) == CompileAll(cs[..i], s, ctx, st)
    decreases |cs|
  {
    if i == |cs| {
      assert cs[..i] == cs;
    } else {
      assert cs[..|cs| - 1][..i] == cs[..i];
      FailsEarly(cs[..|cs| - 1], i, s, ctx, st);
    }
  }

  lemma OneMore(cs: seq<Intent>, i: nat, s: Schema, ctx: Ctx, st: State)
    requires i < |cs| && CompileAll(cs[..i], s, ctx, st).Ok?
    ensures var (nodes, st1) := CompileAll(cs[..i], s, ctx, st).value;
      CompileAll(cs[..i + 1], s, ctx, st)
      == match Compile(cs[i], s, ctx, st1) { case Err(e) => Err(e) case Ok((node, st2)) => Ok((nodes + [node], st2)) }
  {
    assert cs[..i + 1][..i] == cs[..i];
  }

  lemma {:induction false} PushFailsEarly(st: State, ds: seq<Datum>, i: nat)
    requires i <= |ds| && PushAll(st, ds[..i]).Err?
    ensures PushAll(st, ds) == PushAll(st, ds[..i])
    decreases |ds|
  {
    if i == |ds| {
      assert ds[..i] == ds;
    } else {
      assert ds[..|ds| - 1][..i] == ds[..i];
      PushFailsEarly(st, ds[..|ds| - 1], i);
    }
  }

  lemma OneMoreValue(st: State, ds: seq<Datum>, i: nat)
    requires i < |ds| && PushAll(st, ds[..i]).Ok?
    ensures var (nodes, st1) := PushAll(st, ds[..i]).value;
      PushAll(st, ds[..i + 1])
      == match Push(st1, ds[i]) { case Err(e) => Err(e) case Ok((node, st2)) => Ok((nodes + [node], st2)) }
  {
    assert ds[..i + 1][..i] == ds[..i];
  }

  /** Walking a path hop by hop collects what ResolvePath gives. */
  lemma {:induction false} PathStep(m: Model, table: string, path: seq<string>, i: nat)
    requires i < |path| && ResolvePath(m, table, path[..i]).Some?
    ensures var at := EndOf(m, table, path[..i]);
      match Resolve(m, at, path[i])
      case None => ResolvePath(m, table, path) == None
      case Some(r) =>
        && ResolvePath(m, table, path[..i + 1]) == Some(ResolvePath(m, table, path[..i]).value + [HopOf(r)])
        && EndOf(m, table, path[..i + 1]) == r.target
    decreases path
  {
    if i == 0 {
      assert path[..0] == [] && path[..1] == [path[0]];
      assert EndOf(m, table, path[..0]) == table;
      if Resolve(m, table, path[0]).Some? {
        var r := Resolve(m, table, path[0]).value;
        assert path[..1][1..] == [] && path[..1][0] == path[0];
        assert ResolvePath(m, r.target, path[..1][1..]) == Some([]);
        assert [HopOf(r)] + [] == [HopOf(r)] == [] + [HopOf(r)];
      }
    } else {
      var r := Resolve(m, table, path[0]).value;
      assert path[..i][0] == path[0] == path[..i + 1][0];
      assert path[1..][..i - 1] == path[..i][1..];
      assert path[1..][..i] == path[..i + 1][1..];
      assert EndOf(m, table, path[..i]) == EndOf(m, r.target, path[1..][..i - 1]);
      PathStep(m, r.target, path[1..], i - 1);
      var next := Resolve(m, EndOf(m, table, path[..i]), path[i]);
      if next.Some? {
        var before := ResolvePath(m, r.target, path[1..][..i - 1]).value;
        assert [HopOf(r)] + (before + [HopOf(next.value)]) == [HopOf(r)] + before + [HopOf(next.value)];
      }
    }
  }

  /** The table a declared path ends at. */
  function EndOf(m: Model, table: string, path: seq<string>): string
    requires ResolvePath(m, table, path).Some?
    decreases path
  {
    if path == [] then table else EndOf(m, Resolve(m, table, path[0]).value.target, path[1..])
  }

  /** Hop by hop from the table on; None as soon as one is not declared. */
  method FollowPath(m: Model, table: string, path: seq<string>) returns (r: Option<seq<Hop>>)
    ensures r == ResolvePath(m, table, path)
  {
    var currentSource := table;
    var hops := [];
    var i := 0;
    assert path[..0] == [];
    while i < |path|
      invariant i <= |path|
      invariant ResolvePath(m, table, path[..i]) == Some(hops)
      invariant currentSource == EndOf(m, table, path[..i])
    {
      PathStep(m, table, path, i);
      match Resolve(m, currentSource, path[i]) {
        case None => return None;
        case Some(relation) =>
          hops := hops + [HopOf(relation)];
          currentSource := relation.target;
          i := i + 1;
      }
    }
    assert path[..i] == path;
    r := Some(hops);
  }

  /** The chain of EXISTS intents, innermost first; only the outermost may be negated. */
  method NestChain(hops: seq<Hop>, negated: bool, where: Option<Intent>) returns (r: Intent)
    requires hops != []
    ensures r == Nest(hops, negated, where)
  {
    var i := |hops|;
    var innerIntent := where;
    while i > 0
      invariant 0 <= i <= |hops|
      invariant innerIntent == if i == |hops| then where else Some(Nest(hops[i..], i == 0 && negated, where))
    {
      i := i - 1;
      assert hops[i..][1..] == hops[i + 1..];
      innerIntent := Some(Via(hops[i], i == 0 && negated, innerIntent));
    }
    assert hops[0..] == hops;
    r := innerIntent.value;
  }

  class Compiler {
    const schema: Schema
    var paramIndex: nat
    var parameters: seq<Datum>
    var aliases: map<string, string>

    constructor (schema: Schema, start: nat)
      ensures this.schema == schema && View() == State(start, [], map[])
    {
      this.schema := schema;
      paramIndex := start;
      parameters := [];
      aliases := map[];
    }

    function View(): State
      reads this
    {
      State(paramIndex, parameters, aliases)
    }

    /** The outcome and the state are what the specification says; after an error the state is unspecified. */
    predicate Agrees(r: Result<Node, Error>, spec: Compiled)
      reads this
    {
      match spec
      case Err(e) => r == Err(e)
      case Ok((node, st)) => r == Ok(node) && View() == st
    }

    method Bind(d: Datum) returns (r: Result<Node, Error>)
      modifies this
      ensures Agrees(r, Push(old(View()), d))
    {
      if paramIndex + 1 > MAX_PARAM { return Err(ParameterLimit); }
      paramIndex := paramIndex + 1;
      parameters := parameters + [d];
      r := Ok(Param(paramIndex));
    }

    method BindAll(ds: seq<Datum>) returns (r: Result<seq<Node>, Error>)
      modifies this
      ensures match PushAll(old(View()), ds)
              case Err(e) => r == Err(e)
              case Ok((nodes, st)) => r == Ok(nodes) && View() == st
    {
      var items := [];
      var i := 0;
      assert ds[..0] == [];
      while i < |ds|
        invariant i <= |ds|
        invariant PushAll(old(View()), ds[..i]) == Ok((items, View()))
      {
        OneMoreValue(old(View()), ds, i);
        var item := Bind(ds[i]);
        if item.Err? {
          PushFailsEarly(old(View()), ds, i + 1);
          return Err(item.error);
        }
        items := items + [item.value];
        i := i + 1;
      }
      assert ds[..i] == ds;
      r := Ok(items);
    }

    method CompileComparison(c: Intent, ctx: Ctx) returns (r: Result<Node, Error>)
      requires c.Comparison?
      modifies this
      ensures Agrees(r, Compile(c, schema, ctx, old(View())))
    {
      if c.field == [] { return Err(MissingColumn); }
      var left := ColumnOf(c.field, ctx);
      if c.operand == Literal(Null) {
        match c.op {
          case Eq => r := Ok(NullTest(left, true));
          case Neq => r := Ok(NullTest(left, false));
          case DistinctOp => r := Ok(DistinctFrom(left, NullConst));
          case _ => r := Err(NullOperator);
        }
      } else if c.operand.OuterField? {
        if ctx.outer.None? { return Err(NoOuterRange); }
        if c.operand.column == [] { return Err(MissingColumn); }
        if LastDot(c.operand.column) >= 0 { return Err(QualifiedOuter); }
        var right := Column([ctx.outer.value, c.operand.column]);
        r := Ok(CompareNode(c.op, if c.op == Neq then "!=" else OpText(c.op), left, right));
      } else {
        var right := Bind(c.operand.value);
        if right.Err? { return right; }
        r := Ok(CompareNode(c.op, OpText(c.op), left, right.value));
      }
    }

    method CompileRange(c: Intent, ctx: Ctx) returns (r: Result<Node, Error>)
      requires c.Range?
      modifies this
      ensures Agrees(r, Compile(c, schema, ctx, old(View())))
    {
      if c.field == [] { return Err(MissingColumn); }
      var low := Bind(c.low);
      if low.Err? { return low; }
      var high := Bind(c.high);
      if high.Err? { return high; }
      r := Ok(Between(false, ColumnOf(c.field, ctx), low.value, high.value));
    }

    method CompileMembership(c: Intent, ctx: Ctx) returns (r: Result<Node, Error>)
      requires c.Membership?
      modifies this
      ensures Agrees(r, Compile(c, schema, ctx, old(View())))
    {
      if c.field == [] { return Err(MissingColumn); }
      if c.values == [] { return Ok(BoolConst(c.negated)); }
      var left := ColumnOf(c.field, ctx);
      if schema.supportsArrays {
        var list := Bind(ArrayVal(c.values));
        if list.Err? { return list; }
        r := Ok(Quantified(if c.negated then "<>" else "=", c.negated, left, list.value));
      } else {
        var items := BindAll(c.values);
        if items.Err? { return Err(items.error); }
        r := Ok(InList(c.negated, left, items.value));
      }
    }

    method CompileList(op: BoolOp, cs: seq<Intent>, ctx: Ctx) returns (r: Result<Node, Error>)
      modifies this
      ensures Agrees(r, Wrap(op, CompileAll(cs, schema, ctx, old(View()))))
      decreases SizeAll(cs), 2
    {
      var nodes := [];
      var i := 0;
      assert cs[..0] == [];
      while i < |cs|
        invariant i <= |cs|
        invariant CompileAll(cs[..i], schema, ctx, old(View())) == Ok((nodes, View()))
      {
        OneMore(cs, i, schema, ctx, old(View()));
        PartIsSmaller(cs, i);
        var node := CompileIntent(cs[i], ctx);
        if node.Err? {
          FailsEarly(cs, i + 1, schema, ctx, old(View()));
          return node;
        }
        nodes := nodes + [node.value];
        i := i + 1;
      }
      assert cs[..i] == cs;
      if |nodes| == 0 { return Ok(BoolConst(op == AndExpr)); }
      if |nodes| == 1 { return Ok(nodes[0]); }
      r := Ok(BoolExpr(op, nodes));
    }

    method CompileFilter(c: Intent, ctx: Ctx) returns (r: Result<Node, Error>)
      requires c.RelationFilter?
      modifies this
      ensures Agrees(r, Compile(c, schema, ctx, old(View())))
      decreases Size(c), 0
    {
      var vacuousEvery := c.mode == Every && Vacuous(c.where);
      if c.path == [] || (schema.model.None? && |c.path| > 1) {
        return Err(PathError(schema, c.path, vacuousEvery));
      }
      var hops: seq<Hop>;
      if schema.model.None? {
        hops := [Hop(c.path[0], ["id"], [schema.derive(ctx.rootTable)])];
      } else {
        var resolved := FollowPath(schema.model.value, ctx.rootTable, c.path);
        if resolved.None? { return Err(UndeclaredRelation); }
        hops := resolved.value;
      }
      if vacuousEvery {
        if schema.model.None? { return Err(NoModel); }
        return Ok(BoolConst(true));
      }
      HopsNonEmpty(schema, ctx.rootTable, c.path);
      var chain := NestChain(hops, c.mode != AtLeastOne, Innermost(c.mode, c.where));
      r := CompileIntent(chain, ctx);
    }

    method CompileExists(c: Intent, ctx: Ctx) returns (r: Result<Node, Error>)
      requires c.Via?
      modifies this
      ensures Agrees(r, Compile(c, schema, ctx, old(View())))
      decreases Size(c), 0
    {
      if c.hop.target == [] { return Err(MissingTarget); }
      var alias := Aliases.ExistsAlias(c.hop.target, InUse(ctx, View()), |aliases|);
      aliases := aliases[alias := alias];
      assert View() == WithAlias(old(View()), alias);
      var correlation := KeyCorrelation(ctx.alias, c.hop.source, alias, c.hop.keys);
      if correlation.Err? { return correlation; }
      var condition := correlation.value;
      if c.where.Some? {
        assert Size(c) == 1 + SizeOpt(c.where) == 1 + Size(c.where.value);
        var inner := CompileIntent(c.where.value, InnerCtx(c.hop, alias, ctx));
        if inner.Err? { return inner; }
        condition := BoolExpr(AndExpr, [condition, inner.value]);
      }
      var node := Exists(c.hop.target, alias, condition);
      r := Ok(if c.negated then BoolExpr(NotExpr, [node]) else node);
    }

    /** Dispatch on the kind of intent. */
    method CompileIntent(c: Intent, ctx: Ctx) returns (r: Result<Node, Error>)
      modifies this
      ensures Agrees(r, Compile(c, schema, ctx, old(View())))
      decreases Size(c), 1
    {
      match c {
        case Comparison(_, _, _) => r := CompileComparison(c, ctx);
        case NullCheck(field, isNull) =>
          r := if field == [] then Err(MissingColumn) else Ok(NullTest(ColumnOf(field, ctx), isNull));
        case Range(_, _, _) => r := CompileRange(c, ctx);
        case Membership(_, _, _) => r := CompileMembership(c, ctx);
        case And(cs) => r := CompileList(AndExpr, cs, ctx);
        case Or(cs) => r := CompileList(OrExpr, cs, ctx);
        case Negation(x) =>
          r := CompileIntent(x, ctx);
          if r.Ok? { r := Ok(BoolExpr(NotExpr, [r.value])); }
        case Related(relation, negated, where) =>
          if schema.model.None? { return Err(NoModel); }
          var resolved := Resolve(schema.model.value, ctx.rootTable, relation);
          if resolved.None? { return Err(UndeclaredRelation); }
          r := CompileIntent(Via(HopOf(resolved.value), negated, where), ctx);
        case RelationFilter(_, _, _) => r := CompileFilter(c, ctx);
        case Via(_, _, _) => r := CompileExists(c, ctx);
      }
    }

    /** The entry point: refuse junction tables first, then compile. */
    method CompileTopLevel(c: Intent, ctx: Ctx) returns (r: Result<Node, Error>)
      modifies this
      ensures Agrees(r, CompileCondition(c, schema, ctx, old(View())))
    {
      if schema.model.Some? && CrossesManyToMany(c, schema.model.value, ctx.rootTable) { return Err(ManyToMany); }
      r := CompileIntent(c, ctx);
    }
  }
}
