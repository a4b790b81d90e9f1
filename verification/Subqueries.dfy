/**
 Conditions compiled in a state of their own and handed to a caller: the two ways
 packages/adapter-pgsql/src/condition-subquery.ts passes parameters back, and the action guard of
 an upsert in adapter-compiler-mutations.ts. All of them end where compiling in place would.
 */
module Subqueries {
  import opened Common
  import opened Ast
  import opened Conditions
  import opened Acceptance
  import opened ParameterStates
  import opened ConditionCompiler
  import Renumbering

  /** Some comparison, at any depth, reads a column of an enclosing query. */
  predicate RefersOuter(c: Intent)
    decreases c, 1
  {
    match c
    case Comparison(_, _, operand) => operand.OuterField?
    case And(cs) => SomeRefersOuter(cs)
    case Or(cs) => SomeRefersOuter(cs)
    case Negation(x) => RefersOuter(x)
    case Related(_, _, where) => where.Some? && RefersOuter(where.value)
    case RelationFilter(_, _, where) => where.Some? && RefersOuter(where.value)
    case Via(_, _, where) => where.Some? && RefersOuter(where.value)
    case _ => false
  }

  predicate SomeRefersOuter(cs: seq<Intent>)
    decreases cs, 0
  {
    cs != [] && (SomeRefersOuter(cs[..|cs| - 1]) || RefersOuter(cs[|cs| - 1]))
  }

  /** x is c or a part of it, at any depth. */
  ghost predicate PartOf(x: Intent, c: Intent)
    decreases c
  {
    x == c ||
    match c
    case And(cs) => exists i | 0 <= i < |cs| :: PartOf(x, cs[i])
    case Or(cs) => exists i | 0 <= i < |cs| :: PartOf(x, cs[i])
    case Negation(y) => PartOf(x, y)
    case Related(_, _, where) => where.Some? && PartOf(x, where.value)
    case RelationFilter(_, _, where) => where.Some? && PartOf(x, where.value)
    case Via(_, _, where) => where.Some? && PartOf(x, where.value)
    case _ => false
  }

  predicate ReadsOuter(x: Intent) { x.Comparison? && x.operand.OuterField? }

  /** A condition is called correlated exactly when some comparison in it reads a column of an enclosing query. */
  lemma RefersExactly(c: Intent)
    ensures RefersOuter(c) <==> exists x :: PartOf(x, c) && ReadsOuter(x)
  {
    if RefersOuter(c) { var x := PartThatRefers(c); }
    forall x | PartOf(x, c) && ReadsOuter(x) ensures RefersOuter(c) { RefersByPart(x, c); }
  }

  lemma {:induction false} RefersByPart(x: Intent, c: Intent)
    requires PartOf(x, c) && ReadsOuter(x)
    ensures RefersOuter(c)
    decreases c, 1
  {
    if x != c {
      match c
      case And(cs) => AnyRefersByPart(x, cs);
      case Or(cs) => AnyRefersByPart(x, cs);
      case Negation(y) => RefersByPart(x, y);
      case Related(_, _, where) => RefersByPart(x, where.value);
      case RelationFilter(_, _, where) => RefersByPart(x, where.value);
      case Via(_, _, where) => RefersByPart(x, where.value);
    }
  }

  lemma {:induction false} AnyRefersByPart(x: Intent, cs: seq<Intent>)
    requires ReadsOuter(x) && exists i | 0 <= i < |cs| :: PartOf(x, cs[i])
    ensures SomeRefersOuter(cs)
    decreases cs, 0
  {
    var n := |cs| - 1;
    if PartOf(x, cs[n]) {
      RefersByPart(x, cs[n]);
    } else {
      var i :| 0 <= i < |cs| && PartOf(x, cs[i]);
      assert cs[..n][i] == cs[i];
      AnyRefersByPart(x, cs[..n]);
    }
  }

  lemma {:induction false} PartThatRefers(c: Intent) returns (x: Intent)
    requires RefersOuter(c)
    ensures PartOf(x, c) && ReadsOuter(x)
    decreases c, 1
  {
    match c {
      case Comparison(_, _, _) => x := c;
      case And(cs) => var i; i, x := AnyThatRefers(cs);
      case Or(cs) => var i; i, x := AnyThatRefers(cs);
      case Negation(y) => x := PartThatRefers(y);
      case Related(_, _, where) => x := PartThatRefers(where.value);
      case RelationFilter(_, _, where) => x := PartThatRefers(where.value);
      case Via(_, _, where) => x := PartThatRefers(where.value);
    }
  }

  lemma {:induction false} AnyThatRefers(cs: seq<Intent>) returns (i: nat, x: Intent)
    requires SomeRefersOuter(cs)
    ensures i < |cs| && PartOf(x, cs[i]) && ReadsOuter(x)
    decreases cs, 0
  {
    var n := |cs| - 1;
    if RefersOuter(cs[n]) {
      i := n;
      x := PartThatRefers(cs[n]);
    } else {
      i, x := AnyThatRefers(cs[..n]);
    }
  }

  /** What a built subquery hands back: its condition, how many numbers it took, and its values. */
  datatype Body = Body(where: Option<Node>, paramCount: nat, parameters: seq<Datum>)

  datatype Failure = Correlated | Failed(error: Error)

  /** Without a parent the body is compiled in a fresh state that starts at the caller's offset. */
  function Detached(where: Option<Intent>, s: Schema, ctx: Ctx, offset: nat): Result<Body, Failure> {
    if where.None? then Ok(Body(None, 0, []))
    else if RefersOuter(where.value) then Err(Correlated)
    else
      CompilesExactly(where.value, s, ctx, State(offset, [], map[]));
      match Compile(where.value, s, ctx, State(offset, [], map[]))
      case Err(e) => Err(Failed(e))
      case Ok((node, st)) => Ok(Body(Some(node), st.index - offset, st.params))
  }

  /** With a parent the body shares its state and hands nothing back. */
  function Shared(where: Option<Intent>, s: Schema, ctx: Ctx, st: State): Result<(Body, State), Failure> {
    if where.None? then Ok((Body(None, 0, []), st))
    else
      match Compile(where.value, s, ctx, st)
      case Err(e) => Err(Failed(e))
      case Ok((node, st1)) => Ok((Body(Some(node), 0, []), st1))
  }

  /** The caller appends whatever it was handed. */
  function Append(st: State, b: Body): State {
    st.(index := st.index + b.paramCount, params := st.params + b.parameters)
  }

  lemma {:induction false} OuterDoesNotMatter(c: Intent, s: Schema, table: string)
    requires !RefersOuter(c)
    ensures Compilable(c, s, table, false) == Compilable(c, s, table, true)
    decreases c, 1
  {
    match c
    case And(cs) => OuterDoesNotMatterAll(cs, s, table);
    case Or(cs) => OuterDoesNotMatterAll(cs, s, table);
    case Negation(x) => OuterDoesNotMatter(x, s, table);
    case _ =>
  }

  lemma {:induction false} OuterDoesNotMatterAll(cs: seq<Intent>, s: Schema, table: string)
    requires !SomeRefersOuter(cs)
    ensures AllCompilable(cs, s, table, false) == AllCompilable(cs, s, table, true)
    decreases cs, 0
  {
    if cs != [] {
      OuterDoesNotMatterAll(cs[..|cs| - 1], s, table);
      OuterDoesNotMatter(cs[|cs| - 1], s, table);
    }
  }

  lemma BothAccept(c: Intent, s: Schema, apart: Ctx, nested: Ctx, st: State)
    requires apart.rootTable == nested.rootTable && apart.outer.None? && nested.outer.Some? && !RefersOuter(c)
    ensures var own := State(st.index, [], map[]);
      && (Compile(c, s, apart, own).Ok? <==> Compile(c, s, nested, st).Ok?)
      && (Compile(c, s, apart, own).Ok? ==>
            && Bound(own, Compile(c, s, apart, own).value.1, Bindings(c, s))
            && Bound(st, Compile(c, s, nested, st).value.1, Bindings(c, s)))
  {
    CompilesExactly(c, s, apart, State(st.index, [], map[]));
    CompilesExactly(c, s, nested, st);
    OuterDoesNotMatter(c, s, apart.rootTable);
  }

  lemma SameNumbers(c: Intent, s: Schema, apart: Ctx, nested: Ctx, st: State)
    requires var own := State(st.index, [], map[]);
      Compile(c, s, apart, own).Ok? && Compile(c, s, nested, st).Ok? &&
      Compile(c, s, apart, own).value.1.index == Compile(c, s, nested, st).value.1.index
    ensures Numbers(Compile(c, s, apart, State(st.index, [], map[])).value.0)
            == Numbers(Compile(c, s, nested, st).value.0)
  {
    CompileInOrder(c, s, apart, State(st.index, [], map[]));
    CompileInOrder(c, s, nested, st);
  }

  /**
   Both ways accept the same uncorrelated bodies, and leave the caller with the same numbers in
   the body, the same parameter array and the same next number.
   */
  lemma ProtocolsAgree(where: Option<Intent>, s: Schema, apart: Ctx, nested: Ctx, st: State)
    requires apart.rootTable == nested.rootTable && apart.outer.None? && nested.outer.Some?
    ensures Detached(where, s, apart, st.index).Ok? <==>
      Shared(where, s, nested, st).Ok? && (where.Some? ==> !RefersOuter(where.value))
    ensures Detached(where, s, apart, st.index).Ok? ==>
      var a := Detached(where, s, apart, st.index).value;
      var (b, st1) := Shared(where, s, nested, st).value;
      var after, afterShared := Append(st, a), Append(st1, b);
      && after.index == afterShared.index
      && after.params == afterShared.params
      && a.where.Some? == b.where.Some?
      && (a.where.Some? ==> Numbers(a.where.value) == Numbers(b.where.value))
  {
    if where.Some? && !RefersOuter(where.value) {
      BothAccept(where.value, s, apart, nested, st);
      if Compile(where.value, s, nested, st).Ok? {
        SameNumbers(where.value, s, apart, nested, st);
        assert [] + Bindings(where.value, s) == Bindings(where.value, s);
      }
    }
  }

  /** In the same scope, with no alias issued before, even the compiled body is the same. */
  lemma SameScopeSameBody(c: Intent, s: Schema, ctx: Ctx, st: State)
    requires st.aliases == map[] && Compile(c, s, ctx, State(st.index, [], map[])).Ok?
    ensures Compile(c, s, ctx, st).Ok?
    ensures Compile(c, s, ctx, State(st.index, [], map[])).value.0 == Compile(c, s, ctx, st).value.0
  {
    var own := State(st.index, [], map[]);
    CompilesExactly(c, s, ctx, own);
    CompilesExactly(c, s, ctx, st);
    assert Moved(own, 0, st.params) == st;
    CompileShifts(c, s, ctx, own, 0, st.params);
    Renumbering.RenumberByZero(Compile(c, s, ctx, own).value.0);
  }

  // --- as the callers run it ---------------------------------------------------------------------

  /** `buildSubqueryFromIntent`: in the parent's state, or in one of its own. */
  method BuildDetached(where: Option<Intent>, s: Schema, ctx: Ctx, paramOffset: nat) returns (r: Result<Body, Failure>)
    ensures r == Detached(where, s, ctx, paramOffset)
  {
    if where.None? { return Ok(Body(None, 0, [])); }
    if RefersOuter(where.value) { return Err(Correlated); }
    var innerState := new Compiler(s, paramOffset);
    var node := innerState.CompileIntent(where.value, ctx);
    CompilesExactly(where.value, s, ctx, State(paramOffset, [], map[]));
    if node.Err? { return Err(Failed(node.error)); }
    r := Ok(Body(Some(node.value), innerState.paramIndex - paramOffset, innerState.parameters));
  }

  /** `handleSubqueryIntent` after the body is built: push its values, then advance the index. */
  method Receive(caller: Compiler, b: Body)
    modifies caller
    ensures caller.View() == Append(old(caller.View()), b)
  {
    var i := 0;
    while i < |b.parameters|
      invariant i <= |b.parameters|
      invariant caller.paramIndex == old(caller.paramIndex) && caller.aliases == old(caller.aliases)
      invariant caller.parameters == old(caller.parameters) + b.parameters[..i]
    {
      caller.parameters := caller.parameters + [b.parameters[i]];
      assert b.parameters[..i + 1] == b.parameters[..i] + [b.parameters[i]];
      i := i + 1;
    }
    assert b.parameters[..i] == b.parameters;
    caller.paramIndex := caller.paramIndex + b.paramCount;
  }

  // --- the upsert guard ----------------------------------------------------------------------------

  /** The guard compiled in its own namespace, shifted, and its values appended. */
  function SpliceGuard(c: Intent, s: Schema, ctx: Ctx, st: State): Result<(Node, State), Error> {
    match Compile(c, s, ctx, State(0, [], map[]))
    case Err(e) => Err(e)
    case Ok((node, own)) =>
      Ok((Renumbering.Renumber(node, st.index), st.(index := st.index + own.index, params := st.params + own.params)))
  }

  /** While the statement's parameters fit, splicing the guard is compiling it in place. */
  lemma SplicedGuardIsInPlace(c: Intent, s: Schema, ctx: Ctx, st: State)
    requires Compile(c, s, ctx, st.(aliases := map[])).Ok?
    ensures var direct := Compile(c, s, ctx, st.(aliases := map[])).value;
      var spliced := SpliceGuard(c, s, ctx, st);
      && spliced.Ok?
      && spliced.value.0 == direct.0
      && spliced.value.1.index == direct.1.index
      && spliced.value.1.params == direct.1.params
  {
    var own := State(0, [], map[]);
    assert Moved(own, st.index, st.params) == st.(aliases := map[]);
    CompileShifts(c, s, ctx, own, st.index, st.params);
    CompilesExactly(c, s, ctx, own);
    CompilesExactly(c, s, ctx, st.(aliases := map[]));
    assert [] + Bindings(c, s) == Bindings(c, s);
  }

  /** In a parameter namespace of its own. */
  method CompileApart(s: Schema, c: Intent, ctx: Ctx) returns (r: Compiled)
    ensures r == Compile(c, s, ctx, State(0, [], map[]))
  {
    var actionState := new Compiler(s, 0);
    var actionWhere := actionState.CompileIntent(c, ctx);
    if actionWhere.Err? { return Err(actionWhere.error); }
    r := Ok((actionWhere.value, actionState.View()));
  }

  method CompileActionWhere(caller: Compiler, c: Intent, ctx: Ctx) returns (r: Result<Node, Error>)
    modifies caller
    ensures match SpliceGuard(c, caller.schema, ctx, old(caller.View()))
            case Err(e) => r == Err(e) && caller.View() == old(caller.View())
            case Ok((node, st)) => r == Ok(node) && caller.View() == st
  {
    var compiled := CompileApart(caller.schema, c, ctx);
    if compiled.Err? { return Err(compiled.error); }
    var (actionWhere, own) := compiled.value;
    ghost var st := caller.View();
    var shifted := Renumbering.Renumber(actionWhere, caller.paramIndex);
    caller.parameters := caller.parameters + own.params;
    caller.paramIndex := caller.paramIndex + own.index;
    assert caller.View() == st.(index := st.index + own.index, params := st.params + own.params);
    r := Ok(shifted);
  }
}
