/**
 Which resolved conditions compile, how many parameters they take, and why the others are refused:
 packages/adapter-pgsql/src/resolved-condition-compiler.ts:505-801.
 */
module ResolvedAcceptance {
  import opened Common
  import opened Ast
  import C = Conditions
  import opened ResolvedConditions

  // --- what is asked for ----------------------------------------------------------------------------------

  /** How many values a condition records. */
  function Taken(r: Resolved, arrays: bool): nat
    decreases r, 1
  {
    match r
    case AllOf(conditions) => TakenByAll(conditions, arrays)
    case OneOf(conditions) => TakenByAll(conditions, arrays)
    case Negation(condition) => Taken(condition, arrays)
    case NullCheck(_, _) => 0
    case Comparison(_, _, right) => if right.OtherColumn? || right == Value(Null, false) then 0 else 1
    case Membership(_, _, values) => if values != [] && arrays then 1 else |values|
    case Range(_, _, _) => 2
    case Relation(mode, outer, innermost, where) =>
      if mode == C.Every && where.None? then 0
      else TakenByWhere(where, arrays) + TakenByHop(innermost, arrays) + TakenByHops(outer, arrays)
  }

  function TakenByAll(rs: seq<Resolved>, arrays: bool): nat
    decreases rs, 0
  {
    if rs == [] then 0 else Taken(rs[0], arrays) + TakenByAll(rs[1..], arrays)
  }

  function TakenByWhere(where: Option<Resolved>, arrays: bool): nat
    decreases where, 2
  {
    if where.None? then 0 else Taken(where.value, arrays)
  }

  /** A range takes what its default filter takes. */
  function TakenByHop(h: Hop, arrays: bool): nat
    decreases h, 2
  {
    TakenByWhere(h.filter, arrays)
  }

  function TakenByHops(hs: seq<Hop>, arrays: bool): nat
    decreases hs, 3
  {
    if hs == [] then 0 else TakenByHop(hs[|hs| - 1], arrays) + TakenByHops(hs[..|hs| - 1], arrays)
  }

  /** A plain null is compared for equality only, and every range is correlated by at least one pair of columns. */
  predicate Sound(r: Resolved)
    decreases r, 1
  {
    match r
    case AllOf(conditions) => AllSound(conditions)
    case OneOf(conditions) => AllSound(conditions)
    case Negation(condition) => Sound(condition)
    case Comparison(_, op, right) => right == Value(Null, false) ==> op !in {C.Lt, C.Lte, C.Gt, C.Gte}
    case Relation(mode, outer, innermost, where) =>
      (mode == C.Every && where.None?) || (SoundWhere(where) && SoundHop(innermost) && SoundHops(outer))
    case _ => true
  }

  predicate AllSound(rs: seq<Resolved>)
    decreases rs, 0
  {
    rs != [] ==> Sound(rs[0]) && AllSound(rs[1..])
  }

  predicate SoundWhere(where: Option<Resolved>)
    decreases where, 2
  {
    where.Some? ==> Sound(where.value)
  }

  predicate SoundHop(h: Hop)
    decreases h, 2
  {
    h.pairs != [] && SoundWhere(h.filter)
  }

  predicate SoundHops(hs: seq<Hop>)
    decreases hs, 3
  {
    hs != [] ==> SoundHop(hs[|hs| - 1]) && SoundHops(hs[..|hs| - 1])
  }

  predicate Room(st: C.State, n: nat) { n > 0 ==> st.index + n <= 65535 }

  // --- and what comes of it ---------------------------------------------------------------------------------

  /** A result that depends on soundness and room alone: it ends n numbers on, or with the error that fits. */
  predicate Decided<T>(r: Result<(T, C.State), C.Error>, st: C.State, n: nat, sound: bool) {
    match r
    case Ok((_, st1)) => sound && Room(st, n) && st1.index == st.index + n
    case Err(e) =>
      if e == C.ParameterLimit then !Room(st, n) else !sound && (e == C.NullOperator || e == C.BadCorrelation)
  }

  lemma {:induction false} PushAllDecided(st: C.State, ds: seq<Datum>)
    ensures Decided(C.PushAll(st, ds), st, |ds|, true)
  {
    if ds != [] { PushAllDecided(st, ds[..|ds| - 1]); }
  }

  lemma MembershipDecided(left: Node, negated: bool, values: seq<Datum>, arrays: bool, st: C.State)
    ensures Decided(CompileMembership(left, negated, values, arrays, st), st,
                    if values != [] && arrays then 1 else |values|, true)
  {
    PushAllDecided(st, values);
  }

  lemma EqualitiesNone(source: string, target: string, pairs: seq<Pair>)
    ensures Correlation(source, target, pairs).Ok? <==> pairs != []
    ensures pairs == [] ==> Correlation(source, target, pairs) == Err(C.BadCorrelation)
  {
  }

  /** A condition compiles exactly when it is sound and its values fit; otherwise the error says which it was. */
  lemma {:induction false} CompileDecided(r: Resolved, arrays: bool, st: C.State)
    ensures Decided(Compile(r, arrays, st), st, Taken(r, arrays), Sound(r))
    decreases r, 1
  {
    match r
    case AllOf(conditions) => AllDecided(conditions, arrays, st);
    case OneOf(conditions) => AllDecided(conditions, arrays, st);
    case Negation(condition) => CompileDecided(condition, arrays, st);
    case Membership(left, negated, values) => MembershipDecided(ColumnNode(left), negated, values, arrays, st);
    case Relation(_, _, _, _) => RelationDecided(r, arrays, st);
    case _ =>
  }

  lemma {:induction false} AllDecided(rs: seq<Resolved>, arrays: bool, st: C.State)
    ensures Decided(CompileAll(rs, arrays, st), st, TakenByAll(rs, arrays), AllSound(rs))
    decreases rs, 0
  {
    if rs != [] {
      CompileDecided(rs[0], arrays, st);
      if Compile(rs[0], arrays, st).Ok? { AllDecided(rs[1..], arrays, Compile(rs[0], arrays, st).value.1); }
    }
  }

  lemma {:induction false} PredicateDecided(where: Option<Resolved>, negated: bool, arrays: bool, st: C.State)
    ensures Decided(CompilePredicate(where, negated, arrays, st), st, TakenByWhere(where, arrays), SoundWhere(where))
    decreases where, 2
  {
    if where.Some? { CompileDecided(where.value, arrays, st); }
  }

  lemma {:induction false} HopDecided(h: Hop, inner: Option<Node>, arrays: bool, st: C.State)
    ensures Decided(CompileHop(h, inner, arrays, st), st, TakenByHop(h, arrays), SoundHop(h))
    decreases h, 2
  {
    EqualitiesNone(h.source, h.alias, h.pairs);
    if h.filter.Some? { CompileDecided(h.filter.value, arrays, st); }
  }

  lemma {:induction false} HopsDecided(hs: seq<Hop>, inner: Node, arrays: bool, st: C.State)
    ensures Decided(CompileHops(hs, inner, arrays, st), st, TakenByHops(hs, arrays), SoundHops(hs))
    decreases hs, 3
  {
    if hs != [] {
      var last := hs[|hs| - 1];
      HopDecided(last, Some(inner), arrays, st);
      match CompileHop(last, Some(inner), arrays, st)
      case Err(_) =>
      case Ok((node, st1)) => HopsDecided(hs[..|hs| - 1], node, arrays, st1);
    }
  }

  lemma {:induction false} RelationDecided(r: Resolved, arrays: bool, st: C.State)
    requires r.Relation?
    ensures Decided(Compile(r, arrays, st), st, Taken(r, arrays), Sound(r))
    decreases r, 0
  {
    if !r.Vacuous() {
      PredicateDecided(r.where, r.mode == C.Every, arrays, st);
      match CompilePredicate(r.where, r.mode == C.Every, arrays, st)
      case Err(_) =>
      case Ok((inner, st1)) =>
        HopDecided(r.innermost, inner, arrays, st1);
        match CompileHop(r.innermost, inner, arrays, st1)
        case Err(_) =>
        case Ok((chain, st2)) => HopsDecided(r.outer, chain, arrays, st2);
    }
  }

  lemma {:induction false} AllOfBoth(a: seq<Resolved>, b: seq<Resolved>, arrays: bool)
    ensures TakenByAll(a + b, arrays) == TakenByAll(a, arrays) + TakenByAll(b, arrays)
    ensures AllSound(a + b) <==> AllSound(a) && AllSound(b)
  {
    if a == [] {
      assert a + b == b;
    } else {
      assert (a + b)[1..] == a[1..] + b;
      AllOfBoth(a[1..], b, arrays);
    }
  }
}
