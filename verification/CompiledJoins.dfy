/**
 The joins packages/adapter-pgsql/src/adapter-compiler-select.ts:251-306 and 390-518 compiles and hands
 over: a table with the conjunction of its key pairs, its ON and its default filter, compiled one after
 the other in a state of their own; or an unnested list of columns, whose arrays and ON share one. They
 owe nothing, so any sequence of them is accepted and keeps its values.
 */
module CompiledJoins {
  import opened Common
  import opened Ast
  import opened JsonTree
  import opened Joins
  import opened JsonEncoding
  import opened JsonReading
  import C = Conditions
  import M = ConditionMeaning
  import P = ParameterStates
  import A = ResolvedAcceptance
  import opened ResolvedConditions
  import opened ResolvedMeaning
  import opened Semantics

  /** A column of the unnested values with the element type it is cast to. */
  datatype ValuesColumn = ValuesColumn(name: string, data: seq<Datum>, baseType: string)

  datatype JoinIntent =
    | OnTable(table: string, alias: string, left: bool, source: string, pairs: seq<Pair>,
              on: Option<Resolved>, filter: Option<Resolved>)
    | OnValues(alias: string, left: bool, columns: seq<ValuesColumn>, ordinality: bool, condition: Resolved)

  // --- the ON of a table -----------------------------------------------------------------------------

  function KeyPairs(source: string, target: string, pairs: seq<Pair>): seq<Resolved> {
    if pairs == [] then []
    else
      var left, right := Operand(source, pairs[0].fromColumn), Operand(target, pairs[0].toColumn);
      [Comparison(left, C.Eq, OtherColumn(right))] + KeyPairs(source, target, pairs[1..])
  }

  function IfAny(r: Option<Resolved>): seq<Resolved> { match r case None => [] case Some(c) => [c] }

  function Conjuncts(j: JoinIntent): seq<Resolved>
    requires j.OnTable?
  {
    KeyPairs(j.source, j.alias, j.pairs) + IfAny(j.on) + IfAny(j.filter)
  }

  function CompileOn(rs: seq<Resolved>, arrays: bool, st: C.State): C.Compiled {
    match CompileAll(rs, arrays, st)
    case Err(e) => Err(e)
    case Ok((nodes, st1)) => Ok((if |nodes| == 1 then nodes[0] else BoolExpr(AndExpr, nodes), st1))
  }

  // --- the ranges --------------------------------------------------------------------------------------

  /** `$n::type[]` */
  function Cast(n: nat, baseType: string): Json {
    Tagged("TypeCast", [Field("arg", Encode(Param(n))), Field("typeName", ArrayType(baseType))])
  }

  function ArrayType(baseType: string): Json {
    Object([Field("names", List(Strings([baseType]))), Field("typemod", Scalar(NumVal(-1))),
            Field("arrayBounds", List([Tagged("Integer", [Field("ival", Scalar(NumVal(-1)))])]))])
  }

  function Casts(columns: seq<ValuesColumn>, before: nat): seq<Json> {
    if columns == [] then [] else [Cast(before + 1, columns[0].baseType)] + Casts(columns[1..], before + 1)
  }

  function Unnest(args: seq<Json>): Json {
    var name := Field("funcname", List(Strings(["unnest"])));
    Tagged("FuncCall", if args == [] then [name] else [name, Field("args", List(args))])
  }

  function Names(columns: seq<ValuesColumn>): seq<string> {
    if columns == [] then [] else [columns[0].name] + Names(columns[1..])
  }

  function Arrays(columns: seq<ValuesColumn>): (r: seq<Datum>)
    ensures |r| == |columns|
  {
    if columns == [] then [] else [ArrayVal(columns[0].data)] + Arrays(columns[1..])
  }

  function ValuesAlias(alias: string, names: seq<string>): Json {
    Object([Field("aliasname", Text(alias)), Field("colnames", List(Strings(names)))])
  }

  function RangeFunction(args: seq<Json>, ordinality: bool, alias: string, names: seq<string>): Json {
    Tagged("RangeFunction", [Field("functions", List([Items([Unnest(args)])])),
                             Field("ordinality", Scalar(BoolVal(ordinality))),
                             Field("alias", ValuesAlias(alias, names))])
  }

  // --- handing over --------------------------------------------------------------------------------------

  const FRESH: C.State := C.State(0, [], map[])

  function Handed(j: JoinIntent, arrays: bool): Result<Join, C.Error> {
    match j
    case OnTable(table, alias, left, _, _, _, _) =>
      (match CompileOn(Conjuncts(j), arrays, FRESH)
       case Err(e) => Err(e)
       case Ok((node, st)) => Ok(TableMode(RangeVar(table, alias), Encode(node), st.params, left)))
    case OnValues(alias, left, columns, ordinality, condition) =>
      if |columns| > C.MAX_PARAM then Err(C.ParameterLimit)
      else
        match Compile(condition, arrays, FRESH.(index := |columns|))
        case Err(e) => Err(e)
        case Ok((node, st)) =>
          var names := Names(columns) + if ordinality then ["ord"] else [];
          var range := RangeFunction(Casts(columns, 0), ordinality, alias, names);
          Ok(BatchValues(range, Encode(node), Arrays(columns) + st.params, left))
  }

  predicate AllCompile(js: seq<JoinIntent>, arrays: bool) { forall j | j in js :: Handed(j, arrays).Ok? }

  function AllHanded(js: seq<JoinIntent>, arrays: bool): (r: seq<Join>)
    requires AllCompile(js, arrays)
    ensures |r| == |js|
  {
    seq(|js|, i requires 0 <= i < |js| => assert js[i] in js; Handed(js[i], arrays).value)
  }

  lemma HandedLast(js: seq<JoinIntent>, i: nat, arrays: bool)
    requires i < |js| && AllCompile(js[..i], arrays) && Handed(js[i], arrays).Ok?
    ensures AllCompile(js[..i + 1], arrays)
    ensures AllHanded(js[..i + 1], arrays) == AllHanded(js[..i], arrays) + [Handed(js[i], arrays).value]
  {
    assert js[..i + 1] == js[..i] + [js[i]];
    var before, after := AllHanded(js[..i], arrays), AllHanded(js[..i + 1], arrays);
    assert forall k | 0 <= k < i :: before[k] == after[k];
  }

  lemma RestCompiles(js: seq<JoinIntent>, arrays: bool)
    requires js != [] && AllCompile(js, arrays)
    ensures Handed(js[0], arrays).Ok? && AllCompile(js[1..], arrays)
  {
    assert js[0] in js;
    assert forall j | j in js[1..] :: j in js;
  }

  lemma HandedAt(js: seq<JoinIntent>, i: nat, arrays: bool)
    requires i < |js| && AllCompile(js, arrays)
    ensures Handed(js[i], arrays) == Ok(AllHanded(js, arrays)[i])
  {
    assert js[i] in js;
  }

  lemma Prepended<T>(all: seq<T>, first: T, rest: seq<T>)
    requires |all| == |rest| + 1 && all[0] == first && forall i | 0 <= i < |rest| :: all[i + 1] == rest[i]
    ensures all == [first] + rest
  {
  }

  lemma SameLater(js: seq<JoinIntent>, i: nat, arrays: bool)
    requires js != [] && i < |js| - 1 && AllCompile(js, arrays) && AllCompile(js[1..], arrays)
    ensures AllHanded(js, arrays)[i + 1] == AllHanded(js[1..], arrays)[i]
  {
    HandedAt(js, i + 1, arrays);
    HandedAt(js[1..], i, arrays);
  }

  lemma HandedFirst(js: seq<JoinIntent>, arrays: bool)
    requires js != [] && AllCompile(js, arrays)
    ensures Handed(js[0], arrays).Ok? && AllCompile(js[1..], arrays)
    ensures AllHanded(js, arrays) == [Handed(js[0], arrays).value] + AllHanded(js[1..], arrays)
  {
    RestCompiles(js, arrays);
    HandedAt(js, 0, arrays);
    forall i | 0 <= i < |js| - 1 ensures AllHanded(js, arrays)[i + 1] == AllHanded(js[1..], arrays)[i] {
      SameLater(js, i, arrays);
    }
    Prepended(AllHanded(js, arrays), Handed(js[0], arrays).value, AllHanded(js[1..], arrays));
  }

  /** The joins are compiled one after the other; the first that does not compile ends it. */
  method CompileJoinIntents(joins: seq<JoinIntent>, arrays: bool) returns (r: Result<seq<Join>, C.Error>)
    ensures r.Ok? <==> AllCompile(joins, arrays)
    ensures r.Ok? ==> r.value == AllHanded(joins, arrays)
    ensures r.Err? ==> exists i | 0 <= i < |joins| && AllCompile(joins[..i], arrays) ::
      Handed(joins[i], arrays) == Err(r.error)
  {
    var results: seq<Join> := [];
    var i := 0;
    while i < |joins|
      invariant i <= |joins| && AllCompile(joins[..i], arrays)
      invariant results == AllHanded(joins[..i], arrays)
    {
      var join := Handed(joins[i], arrays);
      if join.Err? {
        assert joins[i] in joins;
        return Err(join.error);
      }
      HandedLast(joins, i, arrays);
      results := results + [join.value];
      i := i + 1;
    }
    assert joins[..i] == joins;
    r := Ok(results);
  }

  // --- what the ranges hold ------------------------------------------------------------------------------

  lemma WalkObject(fs: seq<Field>, ns: seq<nat>, k: nat, r: seq<Field>)
    requires FieldsWalk(fs, ns, k, r) && Get(fs, "ParamRef") == None
    ensures Walks(Object(fs), ns, k, Object(r))
  {
  }

  lemma ArrayTypeWalks(baseType: string, k: nat)
    ensures Walks(ArrayType(baseType), [], k, ArrayType(baseType))
  {
    var names, minus := List(Strings([baseType])), Scalar(NumVal(-1));
    var bound := Tagged("Integer", [Field("ival", minus)]);
    WalkStrings([baseType], k);
    WalkConst("Integer", "ival", NumVal(-1), k);
    WalkSingleton(bound, k);
    var tail := [Field("typemod", minus), Field("arrayBounds", List([bound]))];
    WalkTwo("typemod", minus, [], minus, "arrayBounds", List([bound]), [], List([bound]), k);
    WalkField("names", names, [], names, tail, [], tail, k);
    var fs := [Field("names", names)] + tail;
    NoKey(fs);
    WalkObject(fs, [], k, fs);
    assert ArrayType(baseType) == Object(fs);
  }

  lemma CastWalks(n: nat, baseType: string, k: nat)
    ensures Walks(Cast(n, baseType), [n], k, Cast(n + k, baseType))
  {
    WalkParam(n, k);
    ArrayTypeWalks(baseType, k);
    WalkPair("TypeCast", "arg", Encode(Param(n)), [n], Encode(Param(n + k)),
             "typeName", ArrayType(baseType), [], ArrayType(baseType), k);
    assert [n] + [] == [n];
  }

  lemma {:induction false} CastsWalk(columns: seq<ValuesColumn>, before: nat, k: nat)
    ensures ListWalks(Casts(columns, before), P.After(before, |columns|), k, Casts(columns, before + k))
  {
    P.TwoNumbers(before);
    if columns != [] {
      CastWalks(before + 1, columns[0].baseType, k);
      CastsWalk(columns[1..], before + 1, k);
      WalkItem(Cast(before + 1, columns[0].baseType), [before + 1], Cast(before + 1 + k, columns[0].baseType),
               Casts(columns[1..], before + 1), P.After(before + 1, |columns| - 1),
               Casts(columns[1..], before + 1 + k), k);
      P.AfterJoins(before, 1, |columns| - 1);
    }
  }

  lemma UnnestWalks(args: seq<Json>, ns: seq<nat>, k: nat, r: seq<Json>)
    requires ListWalks(args, ns, k, r)
    ensures Walks(Unnest(args), ns, k, Unnest(r))
  {
    var name := List(Strings(["unnest"]));
    WalkStrings(["unnest"], k);
    assert "FuncCall"[0] != "ParamRef"[0];
    if args == [] {
      WalkOne("funcname", name, [], k, name);
      NoKey([Field("funcname", name)]);
      WalkTagged("FuncCall", [Field("funcname", name)], [], k, [Field("funcname", name)]);
    } else {
      WalkPair("FuncCall", "funcname", name, [], name, "args", List(args), ns, List(r), k);
      assert [] + ns == ns;
    }
  }

  lemma OneItemWalks(v: Json, ns: seq<nat>, k: nat, r: Json)
    requires Walks(v, ns, k, r)
    ensures ListWalks([v], ns, k, [r])
  {
    WalkItem(v, ns, r, [], [], [], k);
    assert [v] + [] == [v] && [r] + [] == [r] && ns + [] == ns;
  }

  lemma ValuesAliasWalks(alias: string, names: seq<string>, k: nat)
    ensures Walks(ValuesAlias(alias, names), [], k, ValuesAlias(alias, names))
  {
    var cols := List(Strings(names));
    WalkText(alias, k);
    WalkStrings(names, k);
    WalkTwo("aliasname", Text(alias), [], Text(alias), "colnames", cols, [], cols, k);
    var fs := [Field("aliasname", Text(alias)), Field("colnames", cols)];
    NoKey(fs);
    WalkObject(fs, [], k, fs);
  }

  lemma RangeFunctionWalks(args: seq<Json>, ns: seq<nat>, ordinality: bool, alias: string, names: seq<string>,
      k: nat, r: seq<Json>)
    requires ListWalks(args, ns, k, r)
    ensures Walks(RangeFunction(args, ordinality, alias, names), ns, k, RangeFunction(r, ordinality, alias, names))
  {
    UnnestWalks(args, ns, k, r);
    OneItemWalks(Unnest(args), ns, k, Unnest(r));
    WalkItems([Unnest(args)], ns, k, [Unnest(r)]);
    OneItemWalks(Items([Unnest(args)]), ns, k, Items([Unnest(r)]));
    ValuesAliasWalks(alias, names, k);
    RangeBodyWalks(List([Items([Unnest(args)])]), ns, Scalar(BoolVal(ordinality)), ValuesAlias(alias, names), k,
                   List([Items([Unnest(r)])]));
  }

  lemma RangeBodyWalks(functions: Json, ns: seq<nat>, ordinality: Json, alias: Json, k: nat, r: Json)
    requires Walks(functions, ns, k, r) && Walks(ordinality, [], k, ordinality) && Walks(alias, [], k, alias)
    ensures Walks(Tagged("RangeFunction", [Field("functions", functions), Field("ordinality", ordinality),
                                           Field("alias", alias)]), ns, k,
                  Tagged("RangeFunction", [Field("functions", r), Field("ordinality", ordinality),
                                           Field("alias", alias)]))
  {
    var tail := [Field("ordinality", ordinality), Field("alias", alias)];
    WalkTwo("ordinality", ordinality, [], ordinality, "alias", alias, [], alias, k);
    WalkField("functions", functions, ns, r, tail, [], tail, k);
    var fs := [Field("functions", functions)] + tail;
    NoKey(fs);
    assert "RangeFunction"[0] != "ParamRef"[0] && ns + [] == ns;
    WalkTagged("RangeFunction", fs, ns, k, [Field("functions", r)] + tail);
    assert fs == [Field("functions", functions), Field("ordinality", ordinality), Field("alias", alias)];
    assert [Field("functions", r)] + tail
        == [Field("functions", r), Field("ordinality", ordinality), Field("alias", alias)];
  }

  // --- they owe nothing ------------------------------------------------------------------------------------

  lemma CompileOnUses(rs: seq<Resolved>, arrays: bool, st: C.State)
    ensures Uses(CompileOn(rs, arrays, st), st)
  {
    CompileAllUses(rs, arrays, st);
    if CompileAll(rs, arrays, st).Ok? {
      var nodes := CompileAll(rs, arrays, st).value.0;
      if |nodes| == 1 {
        assert nodes == [nodes[0]];
        P.OneNumbers(nodes[0]);
      }
    }
  }

  /** Range and ON together have one placeholder for each value handed over, numbered from 1. */
  ghost predicate UsesItsValues(j: Join) {
    && j.Numbered() && SingleKeys(j.rarg) && SingleKeys(j.on)
    && Once(NumbersIn(j.rarg) + NumbersIn(j.on), 0, |j.params|)
    && (j.TableMode? ==> NumbersIn(j.rarg) == [])
  }

  lemma HandedUsesItsValues(j: JoinIntent, arrays: bool)
    requires Handed(j, arrays).Ok?
    ensures UsesItsValues(Handed(j, arrays).value)
  {
    if j.OnTable? { TableUsesItsValues(j, arrays); } else { BatchUsesItsValues(j, arrays); }
  }

  lemma TableUsesItsValues(j: JoinIntent, arrays: bool)
    requires j.OnTable? && Handed(j, arrays).Ok?
    ensures UsesItsValues(Handed(j, arrays).value)
  {
    var (node, st) := CompileOn(Conjuncts(j), arrays, FRESH).value;
    WalkRangeVar(j.table, j.alias, 0);
    CompileOnUses(Conjuncts(j), arrays, FRESH);
    EncodeWalks(node, 0);
    assert [] + P.Numbers(node) == P.Numbers(node);
  }

  lemma BatchUsesItsValues(j: JoinIntent, arrays: bool)
    requires j.OnValues? && Handed(j, arrays).Ok?
    ensures UsesItsValues(Handed(j, arrays).value)
  {
    var n := |j.columns|;
    var start := FRESH.(index := n);
    var (node, st) := Compile(j.condition, arrays, start).value;
    CastsWalk(j.columns, 0, 0);
    RangeFunctionWalks(Casts(j.columns, 0), P.After(0, n), j.ordinality, j.alias,
                       Names(j.columns) + if j.ordinality then ["ord"] else [], 0, Casts(j.columns, 0));
    CompileUses(j.condition, arrays, start);
    EncodeWalks(node, 0);
    OnceInOrder(0, n);
    OnceOnwards(P.After(0, n), P.Numbers(node), 0, n, st.index);
  }

  lemma {:induction false} Counted(ns: seq<nat>, k: nat)
    ensures k in ns <==> Count(ns, k) > 0
  {
    if ns != [] { Counted(ns[1..], k); }
  }

  lemma OnceIsClosed(x: seq<nat>, y: seq<nat>, n: nat)
    requires Once(x + y, 0, n)
    ensures Closed(x, n) && Closed(y, n) && 0 !in x && 0 !in y && (n == 0 ==> x + y == [])
  {
    forall k | k in x + y ensures 1 <= k <= n { Counted(x + y, k); }
    forall k | k in x || k in y ensures k in x + y {}
    assert x + y != [] ==> (x + y)[0] in x + y;
  }

  lemma HandedIsOwned(j: Join)
    requires UsesItsValues(j)
    ensures Owned(j)
  {
    OnceIsClosed(NumbersIn(j.rarg), NumbersIn(j.on), |j.params|);
  }

  lemma HandedIsAccepted(st: State, j: Join)
    requires UsesItsValues(j) && st.Numbered()
    ensures Step(st, j).Ok?
  {
    OnceIsClosed(NumbersIn(j.rarg), NumbersIn(j.on), |j.params|);
    if j.TableMode? && j.params != [] { GuardIsOwnership(st, j); }
  }

  /** Any sequence of compiled joins is accepted, and each keeps the values it was compiled with. */
  lemma {:induction false} CompiledJoinsKeepTheirValues(st: State, js: seq<JoinIntent>, arrays: bool)
    requires AllCompile(js, arrays) && st.Numbered() && AllHaveValues(st)
    ensures var handed := AllHanded(js, arrays);
      && Joins.AllNumbered(handed) && Run(st, handed).Ok?
      && var r := Run(st, handed).value;
         r.Numbered() && AllHaveValues(r) && Fill(r.from, r.params) == MeantAll(Fill(st.from, st.params), handed)
    decreases js
  {
    if js != [] {
      HandedFirst(js, arrays);
      HandedUsesItsValues(js[0], arrays);
      var j := Handed(js[0], arrays).value;
      FirstJoinKeepsValues(st, j);
      CompiledJoinsKeepTheirValues(Step(st, j).value, js[1..], arrays);
      RunFirst(st, j, AllHanded(js[1..], arrays));
    }
  }

  lemma FirstJoinKeepsValues(st: State, j: Join)
    requires UsesItsValues(j) && st.Numbered() && AllHaveValues(st)
    ensures Step(st, j).Ok? && AllHaveValues(Step(st, j).value)
    ensures Fill(Step(st, j).value.from, Step(st, j).value.params) == Meant(Fill(st.from, st.params), j)
  {
    HandedIsOwned(j);
    HandedIsAccepted(st, j);
    StepKeepsValues(st, j);
  }

  lemma RunFirst(st: State, j: Join, rest: seq<Join>)
    requires st.Numbered() && j.Numbered() && Joins.AllNumbered(rest) && Step(st, j).Ok?
    ensures Joins.AllNumbered([j] + rest) && Run(st, [j] + rest) == Run(Step(st, j).value, rest)
    ensures forall from :: MeantAll(from, [j] + rest) == MeantAll(Meant(from, j), rest)
  {
    assert ([j] + rest)[1..] == rest;
  }

  // --- what the ON of a table says -------------------------------------------------------------------------

  lemma CompileOnMeans(rs: seq<Resolved>, arrays: bool, st: C.State, env: Env, final: seq<Datum>, w: World)
    requires Coherent(w) && CompileOn(rs, arrays, st).Ok? && M.Carries(final, st, CompileOn(rs, arrays, st).value.1)
    ensures Holds(CompileOn(rs, arrays, st).value.0, env, final, w) == Conj(Meanings(rs, w, env))
  {
    var (nodes, st1) := CompileAll(rs, arrays, st).value;
    CompileAllMeans(rs, arrays, st, env, final, w);
    if |nodes| == 1 {
      assert nodes == [nodes[0]];
      M.OneTruth(nodes[0], env, final, w);
    } else {
      TruthOfDatum(Conj(Truths(nodes, env, final, w)));
    }
  }

  /** Every condition of a list is true. */
  ghost predicate AllTrue(rs: seq<Resolved>, w: World, env: Env) {
    forall i | 0 <= i < |rs| :: Meaning(rs[i], w, env) == True
  }

  lemma {:induction false} ConjIsAllTrue(rs: seq<Resolved>, w: World, env: Env)
    ensures Conj(Meanings(rs, w, env)) == True <==> AllTrue(rs, w, env)
  {
    if rs != [] {
      ConjIsAllTrue(rs[1..], w, env);
      assert AllTrue(rs, w, env) <==> Meaning(rs[0], w, env) == True && AllTrue(rs[1..], w, env) by {
        assert forall i | 1 <= i < |rs| :: rs[i] == rs[1..][i - 1];
      }
    }
  }

  lemma AllTrueParts(a: seq<Resolved>, b: seq<Resolved>, w: World, env: Env)
    ensures AllTrue(a + b, w, env) <==> AllTrue(a, w, env) && AllTrue(b, w, env)
  {
    assert forall i | 0 <= i < |a| :: (a + b)[i] == a[i];
    assert forall i | 0 <= i < |b| :: (a + b)[|a| + i] == b[i];
  }

  /** The two rows agree on the key columns of a join. */
  ghost predicate KeysAgree(j: JoinIntent, w: World, env: Env)
    requires j.OnTable?
  {
    forall i | 0 <= i < |j.pairs| ::
      Compare(w, "=", ValueOf(Operand(j.source, j.pairs[i].fromColumn), env),
              ValueOf(Operand(j.alias, j.pairs[i].toColumn), env)) == True
  }

  lemma {:induction false} KeyPairAt(source: string, target: string, pairs: seq<Pair>, i: nat)
    requires i < |pairs|
    ensures |KeyPairs(source, target, pairs)| == |pairs|
    ensures KeyPairs(source, target, pairs)[i]
            == Comparison(Operand(source, pairs[i].fromColumn), C.Eq, OtherColumn(Operand(target, pairs[i].toColumn)))
  {
    if i > 0 {
      KeyPairAt(source, target, pairs[1..], i - 1);
    } else if |pairs| > 1 {
      KeyPairAt(source, target, pairs[1..], 0);
    }
  }

  lemma KeyPairsMean(j: JoinIntent, w: World, env: Env)
    requires j.OnTable?
    ensures AllTrue(KeyPairs(j.source, j.alias, j.pairs), w, env) <==> KeysAgree(j, w, env)
  {
    var rs := KeyPairs(j.source, j.alias, j.pairs);
    if j.pairs != [] { KeyPairAt(j.source, j.alias, j.pairs, 0); }
    forall i | 0 <= i < |j.pairs|
      ensures Meaning(rs[i], w, env)
              == Compare(w, "=", ValueOf(Operand(j.source, j.pairs[i].fromColumn), env),
                         ValueOf(Operand(j.alias, j.pairs[i].toColumn), env))
    {
      KeyPairAt(j.source, j.alias, j.pairs, i);
    }
  }

  /** The ON of a table holds exactly where the keys agree and both the explicit ON and the default filter are true. */
  lemma TableOnIsTrueExactly(j: JoinIntent, arrays: bool, env: Env, w: World)
    requires Coherent(w) && j.OnTable? && CompileOn(Conjuncts(j), arrays, FRESH).Ok?
    ensures var (node, st) := CompileOn(Conjuncts(j), arrays, FRESH).value;
      (Holds(node, env, st.params, w) == True)
      <==> KeysAgree(j, w, env) && (j.on.Some? ==> Meaning(j.on.value, w, env) == True)
           && (j.filter.Some? ==> Meaning(j.filter.value, w, env) == True)
  {
    var (node, st) := CompileOn(Conjuncts(j), arrays, FRESH).value;
    CompileOnUses(Conjuncts(j), arrays, FRESH);
    assert st.params[..st.index] == st.params;
    CompileOnMeans(Conjuncts(j), arrays, FRESH, env, st.params, w);
    ConjIsAllTrue(Conjuncts(j), w, env);
    AllTrueParts(KeyPairs(j.source, j.alias, j.pairs) + IfAny(j.on), IfAny(j.filter), w, env);
    AllTrueParts(KeyPairs(j.source, j.alias, j.pairs), IfAny(j.on), w, env);
    KeyPairsMean(j, w, env);
  }

  /** The ON of unnested values, compiled behind the arrays, keeps its meaning under the arrays and its own values. */
  lemma BatchOnMeans(j: JoinIntent, arrays: bool, env: Env, w: World)
    requires Coherent(w) && j.OnValues? && Compile(j.condition, arrays, FRESH.(index := |j.columns|)).Ok?
    ensures var (node, st) := Compile(j.condition, arrays, FRESH.(index := |j.columns|)).value;
      Holds(node, env, Arrays(j.columns) + st.params, w) == Meaning(j.condition, w, env)
  {
    var start := FRESH.(index := |j.columns|);
    var (node, st) := Compile(j.condition, arrays, start).value;
    CompileUses(j.condition, arrays, start);
    var final := Arrays(j.columns) + st.params;
    assert final[start.index..st.index] == st.params;
    CompileMeans(j.condition, arrays, start, env, final, w);
  }

  // --- what is handed over, as it is read --------------------------------------------------------------------

  /** CAST($n AS type[]) */
  predicate IsCast(v: Json, n: nat, baseType: string) {
    Tag(v) == Some("TypeCast") &&
    (match At(v, "arg") case Some(arg) => Read(arg) == Some(Param(n)) case None => false) &&
    (match At(v, "typeName") case Some(t) => IsArrayOf(t, baseType) case None => false)
  }

  predicate IsArrayOf(t: Json, baseType: string) {
    t.Object? &&
    (match Get(t.fields, "names") case Some(List(names)) => ReadNames(names) == Some([baseType]) case _ => false) &&
    (match Get(t.fields, "arrayBounds") case Some(List(bounds)) => bounds != [] case _ => false)
  }

  /** unnest(args) */
  predicate IsUnnest(call: Json, args: seq<Json>) {
    Tag(call) == Some("FuncCall") &&
    (match ListAt(call, "funcname") case Some(names) => ReadNames(names) == Some(["unnest"]) case None => false) &&
    (if args == [] then ListAt(call, "args") == None else ListAt(call, "args") == Some(args))
  }

  /** AS alias(names) */
  predicate IsAliasOf(v: Json, alias: string, names: seq<string>) {
    v.Object? && Get(v.fields, "aliasname") == Some(Scalar(TextVal(alias))) &&
    (match Get(v.fields, "colnames") case Some(List(items)) => ReadNames(items) == Some(names) case _ => false)
  }

  /** The i-th argument is the i-th placeholder, cast to the i-th column's type. */
  predicate AreCasts(args: seq<Json>, columns: seq<ValuesColumn>) {
    |args| == |columns| && forall i | 0 <= i < |columns| :: IsCast(args[i], i + 1, columns[i].baseType)
  }

  /** The names of the columns, and of their position where it is asked for. */
  function ColumnNames(columns: seq<ValuesColumn>, ordinality: bool): seq<string> {
    seq(|columns|, i requires 0 <= i < |columns| => columns[i].name) + if ordinality then ["ord"] else []
  }

  /** unnest($1, $2, ..) AS alias(names) with these arguments. */
  predicate IsValuesRange(v: Json, args: seq<Json>, alias: string, columns: seq<ValuesColumn>, ordinality: bool) {
    && Tag(v) == Some("RangeFunction")
    && At(v, "ordinality") == Some(Scalar(BoolVal(ordinality)))
    && At(v, "alias").Some? && IsAliasOf(At(v, "alias").value, alias, ColumnNames(columns, ordinality))
    && (match ListAt(v, "functions")
        case Some(calls) =>
          |calls| == 1 && Tag(calls[0]) == Some("List") &&
          (match ListAt(calls[0], "items")
           case Some(items) => |items| == 1 && IsUnnest(items[0], args)
           case None => false)
        case None => false)
    && AreCasts(args, columns)
  }

  /** The lists of a range name the columns in one order, which is also that of the arrays. */
  lemma {:induction false} NamesKeepOrder(columns: seq<ValuesColumn>)
    ensures |Names(columns)| == |columns|
    ensures forall i | 0 <= i < |columns| :: Names(columns)[i] == columns[i].name
    ensures forall i | 0 <= i < |columns| :: Arrays(columns)[i] == ArrayVal(columns[i].data)
  {
    if columns != [] {
      NamesKeepOrder(columns[1..]);
      assert forall i | 1 <= i < |columns| :: columns[i] == columns[1..][i - 1];
    }
  }

  lemma {:induction false} CastAt(columns: seq<ValuesColumn>, before: nat, i: nat)
    requires i < |columns|
    ensures |Casts(columns, before)| == |columns|
    ensures Casts(columns, before)[i] == Cast(before + i + 1, columns[i].baseType)
  {
    if i > 0 {
      CastAt(columns[1..], before + 1, i - 1);
    } else if |columns| > 1 {
      CastAt(columns[1..], before + 1, 0);
    }
  }

  lemma ArrayTypeReads(baseType: string)
    ensures IsArrayOf(ArrayType(baseType), baseType)
  {
    var a, b := Field("names", List(Strings([baseType]))), Field("typemod", Scalar(NumVal(-1)));
    var c := Field("arrayBounds", List([Tagged("Integer", [Field("ival", Scalar(NumVal(-1)))])]));
    assert |"names"| == 5 && |"typemod"| == 7 && |"arrayBounds"| == 11;
    GetThree(a, b, c);
    ReadStrings([baseType]);
  }

  lemma CastReads(n: nat, baseType: string)
    ensures IsCast(Cast(n, baseType), n, baseType)
  {
    var a, b := Field("arg", Encode(Param(n))), Field("typeName", ArrayType(baseType));
    assert |"arg"| != |"typeName"|;
    GetTwo(a, b);
    AtTagged("TypeCast", [a, b], "arg");
    AtTagged("TypeCast", [a, b], "typeName");
    ReadsEncoded(Param(n));
    ArrayTypeReads(baseType);
  }

  lemma UnnestReads(args: seq<Json>)
    ensures IsUnnest(Unnest(args), args)
  {
    var a, b := Field("funcname", List(Strings(["unnest"]))), Field("args", List(args));
    assert |"funcname"| != |"args"|;
    ReadStrings(["unnest"]);
    GetOne(a);
    GetTwo(a, b);
    AtTagged("FuncCall", if args == [] then [a] else [a, b], "funcname");
    AtTagged("FuncCall", if args == [] then [a] else [a, b], "args");
    assert [a][1..] == [];
  }

  lemma AliasReads(alias: string, names: seq<string>)
    ensures IsAliasOf(ValuesAlias(alias, names), alias, names)
  {
    var a, b := Field("aliasname", Text(alias)), Field("colnames", List(Strings(names)));
    assert |"aliasname"| != |"colnames"|;
    GetTwo(a, b);
    ReadStrings(names);
  }

  lemma RangeReads(args: seq<Json>, ordinality: bool, alias: string, names: seq<string>)
    ensures var v := RangeFunction(args, ordinality, alias, names);
      && Tag(v) == Some("RangeFunction") && At(v, "ordinality") == Some(Scalar(BoolVal(ordinality)))
      && At(v, "alias") == Some(ValuesAlias(alias, names)) && ListAt(v, "functions") == Some([Items([Unnest(args)])])
  {
    var a, b := Field("functions", List([Items([Unnest(args)])])), Field("ordinality", Scalar(BoolVal(ordinality)));
    var c := Field("alias", ValuesAlias(alias, names));
    assert |"functions"| == 9 && |"ordinality"| == 10 && |"alias"| == 5;
    GetThree(a, b, c);
    AtTagged("RangeFunction", [a, b, c], "functions");
    AtTagged("RangeFunction", [a, b, c], "ordinality");
    AtTagged("RangeFunction", [a, b, c], "alias");
  }

  lemma ItemsRead(items: seq<Json>)
    ensures Tag(Items(items)) == Some("List") && ListAt(Items(items), "items") == Some(items)
  {
    GetOne(Field("items", List(items)));
    AtTagged("List", [Field("items", List(items))], "items");
  }

  lemma RangeIsOver(args: seq<Json>, ordinality: bool, alias: string, names: seq<string>, columns: seq<ValuesColumn>)
    requires names == ColumnNames(columns, ordinality) && AreCasts(args, columns)
    ensures IsValuesRange(RangeFunction(args, ordinality, alias, names), args, alias, columns, ordinality)
  {
    RangeReads(args, ordinality, alias, names);
    ItemsRead([Unnest(args)]);
    AliasReads(alias, names);
    UnnestReads(args);
  }

  lemma CastsAreCasts(columns: seq<ValuesColumn>)
    ensures AreCasts(Casts(columns, 0), columns)
  {
    if columns != [] { CastAt(columns, 0, 0); }
    forall i | 0 <= i < |columns| ensures IsCast(Casts(columns, 0)[i], i + 1, columns[i].baseType) {
      CastAt(columns, 0, i);
      CastReads(i + 1, columns[i].baseType);
    }
  }

  lemma SameElements<T>(a: seq<T>, b: seq<T>)
    requires |a| == |b| && forall i | 0 <= i < |a| :: a[i] == b[i]
    ensures a == b
  {
  }

  /** The arrays of the columns, in their order. */
  function ColumnArrays(columns: seq<ValuesColumn>): (r: seq<Datum>)
    ensures |r| == |columns| && forall i | 0 <= i < |r| :: r[i] == ArrayVal(columns[i].data)
  {
    seq(|columns|, i requires 0 <= i < |columns| => ArrayVal(columns[i].data))
  }

  lemma ArraysAreColumnArrays(columns: seq<ValuesColumn>)
    ensures Arrays(columns) == ColumnArrays(columns)
  {
    NamesKeepOrder(columns);
    SameElements(Arrays(columns), ColumnArrays(columns));
  }

  lemma NamesAreColumnNames(columns: seq<ValuesColumn>, ordinality: bool)
    ensures Names(columns) + (if ordinality then ["ord"] else []) == ColumnNames(columns, ordinality)
  {
    NamesKeepOrder(columns);
    SameElements(Names(columns), ColumnNames(columns, ordinality)[..|columns|]);
  }

  /** The table under its alias, and the compiled conjunction with its values. */
  predicate ReadsAsTable(h: Join, j: JoinIntent, arrays: bool)
    requires j.OnTable? && CompileOn(Conjuncts(j), arrays, FRESH).Ok?
  {
    var on := CompileOn(Conjuncts(j), arrays, FRESH).value;
    h.TableMode? && ReadRange(h.rarg) == Some((j.table, j.alias)) && Read(h.on) == Some(on.0) && h.params == on.1.params
  }

  /** The columns under their alias, and the arrays in their order before the values of the compiled condition. */
  ghost predicate ReadsAsValues(h: Join, j: JoinIntent, arrays: bool)
    requires j.OnValues? && Compile(j.condition, arrays, FRESH.(index := |j.columns|)).Ok?
  {
    var columns := j.columns;
    var on := Compile(j.condition, arrays, FRESH.(index := |columns|)).value;
    && h.BatchValues?
    && (exists args :: IsValuesRange(h.rarg, args, j.alias, columns, j.ordinality))
    && Read(h.on) == Some(on.0)
    && h.params == ColumnArrays(columns) + on.1.params
  }

  lemma ValuesRead(j: JoinIntent, arrays: bool)
    requires j.OnValues? && Handed(j, arrays).Ok?
    ensures Handed(j, arrays).value.left == j.left && ReadsAsValues(Handed(j, arrays).value, j, arrays)
  {
    var names, args := ColumnNames(j.columns, j.ordinality), Casts(j.columns, 0);
    NamesAreColumnNames(j.columns, j.ordinality);
    ArraysAreColumnArrays(j.columns);
    CastsAreCasts(j.columns);
    RangeIsOver(args, j.ordinality, j.alias, names, j.columns);
    ReadsEncoded(Compile(j.condition, arrays, FRESH.(index := |j.columns|)).value.0);
    assert Handed(j, arrays).value.rarg == RangeFunction(args, j.ordinality, j.alias, names);
  }

  /** What is handed over reads as the join that was asked for. */
  lemma HandedReads(j: JoinIntent, arrays: bool)
    requires Handed(j, arrays).Ok?
    ensures var h := Handed(j, arrays).value;
      h.left == j.left && if j.OnTable? then ReadsAsTable(h, j, arrays) else ReadsAsValues(h, j, arrays)
  {
    if j.OnTable? {
      ReadsRange(j.table, j.alias);
      ReadsEncoded(CompileOn(Conjuncts(j), arrays, FRESH).value.0);
    } else {
      ValuesRead(j, arrays);
    }
  }

  // --- which joins are handed over -----------------------------------------------------------------------------

  lemma {:induction false} KeyPairsTakeNothing(source: string, target: string, pairs: seq<Pair>, arrays: bool)
    ensures A.TakenByAll(KeyPairs(source, target, pairs), arrays) == 0 && A.AllSound(KeyPairs(source, target, pairs))
  {
    if pairs != [] { KeyPairsTakeNothing(source, target, pairs[1..], arrays); }
  }

  lemma IfAnyTakes(r: Option<Resolved>, arrays: bool)
    ensures A.TakenByAll(IfAny(r), arrays) == A.TakenByWhere(r, arrays)
    ensures A.AllSound(IfAny(r)) <==> A.SoundWhere(r)
  {
    if r.Some? { assert [r.value][1..] == []; }
  }

  lemma ConjunctsTake(j: JoinIntent, arrays: bool)
    requires j.OnTable?
    ensures A.TakenByAll(Conjuncts(j), arrays) == A.TakenByWhere(j.on, arrays) + A.TakenByWhere(j.filter, arrays)
    ensures A.AllSound(Conjuncts(j)) <==> A.SoundWhere(j.on) && A.SoundWhere(j.filter)
  {
    var keys := KeyPairs(j.source, j.alias, j.pairs);
    KeyPairsTakeNothing(j.source, j.alias, j.pairs, arrays);
    IfAnyTakes(j.on, arrays);
    IfAnyTakes(j.filter, arrays);
    A.AllOfBoth(keys, IfAny(j.on), arrays);
    A.AllOfBoth(keys + IfAny(j.on), IfAny(j.filter), arrays);
  }

  /** A join is handed over exactly when its conditions are sound and its arrays and values fit together. */
  lemma HandedExactly(j: JoinIntent, arrays: bool)
    ensures Handed(j, arrays).Ok? <==>
      if j.OnTable? then
        && A.SoundWhere(j.on) && A.SoundWhere(j.filter)
        && A.TakenByWhere(j.on, arrays) + A.TakenByWhere(j.filter, arrays) <= 65535
      else A.Sound(j.condition) && |j.columns| + A.Taken(j.condition, arrays) <= 65535
  {
    if j.OnTable? {
      A.AllDecided(Conjuncts(j), arrays, FRESH);
      ConjunctsTake(j, arrays);
    } else {
      A.CompileDecided(j.condition, arrays, FRESH.(index := |j.columns|));
    }
  }
}
