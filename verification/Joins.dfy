/**
 Precompiled JOINs, packages/adapter-pgsql/src/compiler.ts:2848-2899: fragments with a parameter
 list of their own are spliced into a statement that already has parameters.
 */
module Joins {
  import opened Common
  import opened Ast
  import opened JsonTree

  /** A join whose range and ON were compiled apart. Batch joins own parameters in both. */
  datatype Join =
    | BatchValues(rarg: Json, on: Json, params: seq<Datum>, left: bool)
    | TableMode(rarg: Json, on: Json, params: seq<Datum>, left: bool)
  {
    predicate Numbered() { JsonTree.Numbered(rarg) && JsonTree.Numbered(on) }
  }

  datatype Error = ForeignParameter

  datatype State = State(index: nat, params: seq<Datum>, from: Json)
  {
    predicate Numbered() { JsonTree.Numbered(from) }
  }

  function JoinBody(left: bool, larg: Json, rarg: Json, quals: Json): seq<Field> {
    [Field("jointype", Scalar(TextVal(if left then "JOIN_LEFT" else "JOIN_INNER"))),
     Field("larg", larg), Field("rarg", rarg), Field("quals", quals)]
  }

  function JoinNode(left: bool, larg: Json, rarg: Json, quals: Json): Json {
    Object([Field("JoinExpr", Object(JoinBody(left, larg, rarg, quals)))])
  }

  predicate FieldsRead(fs: seq<Field>, ns: seq<nat>, params: seq<Datum>, r: seq<Field>) {
    FieldsNumbered(fs) && NumbersInFields(fs) == ns && FillFields(fs, params) == r
  }

  lemma ReadField(key: string, v: Json, fs: seq<Field>, ns: seq<nat>, params: seq<Datum>, r: seq<Field>)
    requires Numbered(v) && FieldsRead(fs, ns, params, r)
    ensures FieldsRead([Field(key, v)] + fs, NumbersIn(v) + ns, params, [Field(key, Fill(v, params))] + r)
  {
    assert ([Field(key, v)] + fs)[1..] == fs;
  }

  lemma {:induction false} NoParamKey(fs: seq<Field>)
    requires forall f | f in fs :: f.key != "ParamRef"
    ensures Get(fs, "ParamRef") == None
  {
    if fs != [] { NoParamKey(fs[1..]); }
  }

  lemma ReadTagged(tag: string, body: seq<Field>, ns: seq<nat>, params: seq<Datum>, r: seq<Field>)
    requires tag != "ParamRef" && FieldsRead(body, ns, params, r) && Get(body, "ParamRef") == None
    ensures var v := Object([Field(tag, Object(body))]);
      Numbered(v) && NumbersIn(v) == ns && Fill(v, params) == Object([Field(tag, Object(r))])
  {
    var v := Object([Field(tag, Object(body))]);
    NoParamKey(v.fields);
    assert Numbered(Object(body)) && NumbersIn(Object(body)) == ns && Fill(Object(body), params) == Object(r);
    ReadField(tag, Object(body), [], [], params, []);
    assert [Field(tag, Object(body))] + [] == v.fields && ns + [] == ns;
    assert [Field(tag, Object(r))] + [] == [Field(tag, Object(r))];
  }

  /** The body of a join is read field by field. */
  lemma JoinBodyParts(left: bool, larg: Json, rarg: Json, quals: Json, params: seq<Datum>)
    requires Numbered(larg) && Numbered(rarg) && Numbered(quals)
    ensures FieldsRead(JoinBody(left, larg, rarg, quals), NumbersIn(larg) + NumbersIn(rarg) + NumbersIn(quals), params,
                       JoinBody(left, Fill(larg, params), Fill(rarg, params), Fill(quals, params)))
  {
    var kind := Scalar(TextVal(if left then "JOIN_LEFT" else "JOIN_INNER"));
    var q, q2 := [Field("quals", quals)], [Field("quals", Fill(quals, params))];
    var two, two2 := [Field("rarg", rarg)] + q, [Field("rarg", Fill(rarg, params))] + q2;
    var three, three2 := [Field("larg", larg)] + two, [Field("larg", Fill(larg, params))] + two2;
    ReadLast("quals", quals, params);
    ReadField("rarg", rarg, q, NumbersIn(quals), params, q2);
    ReadField("larg", larg, two, NumbersIn(rarg) + NumbersIn(quals), params, two2);
    ReadField("jointype", kind, three, NumbersIn(larg) + (NumbersIn(rarg) + NumbersIn(quals)), params, three2);
    BodyIsCons(left, larg, rarg, quals);
    BodyIsCons(left, Fill(larg, params), Fill(rarg, params), Fill(quals, params));
    Associative(NumbersIn(larg), NumbersIn(rarg), NumbersIn(quals));
    NothingBefore(NumbersIn(larg) + (NumbersIn(rarg) + NumbersIn(quals)));
  }

  lemma NothingBefore(ns: seq<nat>)
    ensures [] + ns == ns
  {
  }

  lemma ReadLast(key: string, v: Json, params: seq<Datum>)
    requires Numbered(v)
    ensures FieldsRead([Field(key, v)], NumbersIn(v), params, [Field(key, Fill(v, params))])
  {
    ReadField(key, v, [], [], params, []);
    assert [Field(key, v)] + [] == [Field(key, v)] && NumbersIn(v) + [] == NumbersIn(v);
    assert [Field(key, Fill(v, params))] + [] == [Field(key, Fill(v, params))];
  }

  lemma BodyIsCons(left: bool, larg: Json, rarg: Json, quals: Json)
    ensures JoinBody(left, larg, rarg, quals)
            == [Field("jointype", Scalar(TextVal(if left then "JOIN_LEFT" else "JOIN_INNER")))]
               + ([Field("larg", larg)] + ([Field("rarg", rarg)] + [Field("quals", quals)]))
  {
  }

  /** What a join node contains is what its three parts contain. */
  lemma JoinNodeParts(left: bool, larg: Json, rarg: Json, quals: Json, params: seq<Datum>)
    requires Numbered(larg) && Numbered(rarg) && Numbered(quals)
    ensures var n := JoinNode(left, larg, rarg, quals);
      && Numbered(n)
      && NumbersIn(n) == NumbersIn(larg) + NumbersIn(rarg) + NumbersIn(quals)
      && Fill(n, params) == JoinNode(left, Fill(larg, params), Fill(rarg, params), Fill(quals, params))
  {
    var body := JoinBody(left, larg, rarg, quals);
    JoinBodyParts(left, larg, rarg, quals, params);
    NoParamKey(body);
    assert "JoinExpr"[0] != "ParamRef"[0];
    ReadTagged("JoinExpr", body, NumbersIn(larg) + NumbersIn(rarg) + NumbersIn(quals), params,
               JoinBody(left, Fill(larg, params), Fill(rarg, params), Fill(quals, params)));
  }

  // --- one join --------------------------------------------------------------------------------------

  function Step(st: State, j: Join): (r: Result<State, Error>)
    requires st.Numbered() && j.Numbered()
    ensures r.Ok? ==> r.value.Numbered()
  {
    var offset := |st.params|;
    if j.BatchValues? then
      var rarg, on := RenumberParamRefsInAst(j.rarg, offset), RenumberParamRefsInAst(j.on, offset);
      JoinNodeParts(j.left, st.from, rarg, on, []);
      Ok(State(offset + |j.params|, st.params + j.params, JoinNode(j.left, st.from, rarg, on)))
    else if j.params == [] then
      JoinNodeParts(j.left, st.from, j.rarg, j.on, []);
      Ok(st.(from := JoinNode(j.left, st.from, j.rarg, j.on)))
    else if MaxParamRefNumber(j.on) > |j.params| then Err(ForeignParameter)
    else
      var on := RenumberParamRefsInAst(j.on, offset);
      JoinNodeParts(j.left, st.from, j.rarg, on, []);
      Ok(State(offset + |j.params|, st.params + j.params, JoinNode(j.left, st.from, j.rarg, on)))
  }

  /** The guard's verdict is that every placeholder of the ON has a value in its own list. */
  lemma GuardIsOwnership(st: State, j: Join)
    requires st.Numbered() && j.Numbered() && j.TableMode? && j.params != []
    requires 0 !in NumbersIn(j.on)
    ensures Step(st, j).Ok? <==> Closed(NumbersIn(j.on), |j.params|)
  {
    MaxIsLargest(j.on);
  }

  /**
   What the caller owes: a batch join refers to its own parameters only, a table range to none,
   and an ON without parameters to none. For an ON with parameters the guard checks it.
   */
  predicate Owned(j: Join)
    requires j.Numbered()
  {
    SingleKeys(j.rarg) && SingleKeys(j.on) && 0 !in NumbersIn(j.on) &&
    if j.BatchValues? then Closed(NumbersIn(j.rarg), |j.params|) && Closed(NumbersIn(j.on), |j.params|)
    else NumbersIn(j.rarg) == [] && (j.params == [] ==> NumbersIn(j.on) == [])
  }

  /** The join with the value of each placeholder in place, as its author meant it. */
  function Meant(larg: Json, j: Join): Json
    requires j.Numbered()
  {
    JoinNode(j.left, larg, Fill(j.rarg, j.params), Fill(j.on, j.params))
  }

  predicate AllHaveValues(st: State)
    requires st.Numbered()
  {
    Closed(NumbersIn(st.from), |st.params|)
  }

  lemma ClosedThree(a: seq<nat>, b: seq<nat>, c: seq<nat>, n: nat)
    requires Closed(a, n) && Closed(b, n) && Closed(c, n)
    ensures Closed(a + b + c, n)
  {
  }

  lemma Closes(ns: seq<nat>, m: nat, n: nat)
    requires Closed(ns, m) && m <= n
    ensures Closed(ns, n)
  {
  }

  /** One fragment: shifted into place it has its own values there. */
  lemma Spliced(v: Json, before: seq<Datum>, own: seq<Datum>)
    requires Numbered(v) && SingleKeys(v) && Closed(NumbersIn(v), |own|)
    ensures Fill(RenumberParamRefsInAst(v, |before|), before + own) == Fill(v, own)
    ensures Closed(NumbersIn(RenumberParamRefsInAst(v, |before|)), |before + own|)
  {
    FragmentKeepsItsValues(v, before, own, []);
    assert before + own + [] == before + own;
  }

  /** A fragment without placeholders is the same everywhere. */
  lemma Constant(v: Json, params: seq<Datum>, own: seq<Datum>)
    requires Numbered(v) && NumbersIn(v) == []
    ensures Fill(v, params) == Fill(v, own) && Closed(NumbersIn(v), |params|)
  {
    MoreParamsFill(v, [], params);
    MoreParamsFill(v, [], own);
    assert [] + params == params && [] + own == own;
  }

  /** An accepted join joins what it means to what was there, and disturbs nothing. */
  lemma StepKeepsValues(st: State, j: Join)
    requires st.Numbered() && j.Numbered() && Owned(j) && AllHaveValues(st)
    requires Step(st, j).Ok?
    ensures var r := Step(st, j).value;
      && r.params == st.params + j.params
      && AllHaveValues(r)
      && Fill(r.from, r.params) == Meant(Fill(st.from, st.params), j)
  {
    var all := st.params + j.params;
    if j.TableMode? && j.params != [] { GuardIsOwnership(st, j); }
    var rarg := if j.BatchValues? then RenumberParamRefsInAst(j.rarg, |st.params|) else j.rarg;
    var on := if j.BatchValues? || j.params != [] then RenumberParamRefsInAst(j.on, |st.params|) else j.on;
    if j.BatchValues? { Spliced(j.rarg, st.params, j.params); } else { Constant(j.rarg, all, j.params); }
    if j.BatchValues? || j.params != [] { Spliced(j.on, st.params, j.params); } else { Constant(j.on, all, j.params); }
    MoreParamsFill(st.from, st.params, j.params);
    Closes(NumbersIn(st.from), |st.params|, |all|);
    ClosedThree(NumbersIn(st.from), NumbersIn(rarg), NumbersIn(on), |all|);
    JoinNodeParts(j.left, st.from, rarg, on, all);
    assert j.params == [] ==> all == st.params;
    assert Step(st, j).value.from == JoinNode(j.left, st.from, rarg, on);
  }

  // --- what the join is, part by part ------------------------------------------------------------------

  /** A join of these parts: one field of that name, over a body where each part stands under its own key. */
  predicate IsJoinOf(n: Json, left: bool, larg: Json, rarg: Json, quals: Json) {
    n.Object? && |n.fields| == 1 && n.fields[0].key == "JoinExpr" && n.fields[0].value.Object? &&
    var body := n.fields[0].value.fields;
    && |body| == 4
    && (left ==> Get(body, "jointype") == Some(Scalar(TextVal("JOIN_LEFT"))))
    && (!left ==> Get(body, "jointype") == Some(Scalar(TextVal("JOIN_INNER"))))
    && Get(body, "larg") == Some(larg)
    && Get(body, "rarg") == Some(rarg)
    && Get(body, "quals") == Some(quals)
  }

  lemma GetSecond(key: string, f: Field, g: Field, rest: seq<Field>)
    requires f.key != key
    ensures Get([f] + ([g] + rest), key) == if g.key == key then Some(g.value) else Get(rest, key)
  {
    assert ([f] + ([g] + rest))[1..] == [g] + rest && ([g] + rest)[1..] == rest;
  }

  lemma JoinNodeIsJoin(left: bool, larg: Json, rarg: Json, quals: Json)
    ensures IsJoinOf(JoinNode(left, larg, rarg, quals), left, larg, rarg, quals)
  {
    var kind := Field("jointype", JoinBody(left, larg, rarg, quals)[0].value);
    var q := [Field("quals", quals)];
    BodyIsCons(left, larg, rarg, quals);
    assert |"larg"| != |"jointype"| && |"rarg"| != |"jointype"| && |"quals"| != |"jointype"|;
    assert "larg"[0] != "rarg"[0] && |"quals"| != |"larg"| && |"quals"| != |"rarg"|;
    GetSecond("larg", kind, Field("larg", larg), [Field("rarg", rarg)] + q);
    GetSecond("rarg", kind, Field("larg", larg), [Field("rarg", rarg)] + q);
    GetSecond("quals", kind, Field("larg", larg), [Field("rarg", rarg)] + q);
    GetSecond("quals", Field("rarg", rarg), Field("quals", quals), []);
    assert [Field("quals", quals)] + [] == q;
  }

  /**
   An accepted step wraps the FROM tree as the left side of a join of the decision's own type, with the
   decision's own range and ON; what is behind parameters of the statement is shifted past them.
   */
  lemma StepBuildsTheJoin(st: State, j: Join)
    requires st.Numbered() && j.Numbered() && Step(st, j).Ok?
    ensures var r := Step(st, j).value;
      && IsJoinOf(r.from, j.left, st.from,
                  if j.BatchValues? then RenumberParamRefsInAst(j.rarg, |st.params|) else j.rarg,
                  if j.BatchValues? || j.params != [] then RenumberParamRefsInAst(j.on, |st.params|) else j.on)
      && r.params == st.params + j.params
      && r.index == if j.BatchValues? || j.params != [] then |r.params| else st.index
  {
    var rarg := if j.BatchValues? then RenumberParamRefsInAst(j.rarg, |st.params|) else j.rarg;
    var on := if j.BatchValues? || j.params != [] then RenumberParamRefsInAst(j.on, |st.params|) else j.on;
    JoinNodeIsJoin(j.left, st.from, rarg, on);
  }

  /** Read under the parameters, it joins what was there with the range and ON read under their own. */
  lemma StepReadsAsTheJoin(st: State, j: Join)
    requires st.Numbered() && j.Numbered() && Owned(j) && AllHaveValues(st)
    requires Step(st, j).Ok?
    ensures var r := Step(st, j).value;
      IsJoinOf(Fill(r.from, r.params), j.left, Fill(st.from, st.params), Fill(j.rarg, j.params), Fill(j.on, j.params))
  {
    StepKeepsValues(st, j);
    JoinNodeIsJoin(j.left, Fill(st.from, st.params), Fill(j.rarg, j.params), Fill(j.on, j.params));
  }

  // --- any sequence of joins -------------------------------------------------------------------------

  predicate AllNumbered(js: seq<Join>) { forall j | j in js :: j.Numbered() }

  predicate AllOwned(js: seq<Join>)
    requires AllNumbered(js)
  {
    forall j | j in js :: Owned(j)
  }

  function Run(st: State, js: seq<Join>): Result<State, Error>
    requires st.Numbered() && AllNumbered(js)
    decreases |js|
  {
    if js == [] then Ok(st)
    else
      match Step(st, js[0])
      case Err(e) => Err(e)
      case Ok(next) => Run(next, js[1..])
  }

  function MeantAll(from: Json, js: seq<Join>): Json
    requires AllNumbered(js)
    decreases |js|
  {
    if js == [] then from else MeantAll(Meant(from, js[0]), js[1..])
  }

  /**
   After any accepted sequence of joins the statement, read under its parameter array, is the
   statement before it joined with every fragment read under the fragment's own array.
   */
  lemma {:induction false} RunKeepsValues(st: State, js: seq<Join>)
    requires st.Numbered() && AllNumbered(js) && AllOwned(js) && AllHaveValues(st)
    requires Run(st, js).Ok?
    ensures var r := Run(st, js).value;
      r.Numbered() && AllHaveValues(r) && st.params <= r.params &&
      Fill(r.from, r.params) == MeantAll(Fill(st.from, st.params), js)
    decreases |js|
  {
    if js != [] {
      StepKeepsValues(st, js[0]);
      RunKeepsValues(Step(st, js[0]).value, js[1..]);
    }
  }

  // --- an ON without parameters is neither checked nor shifted ---------------------------------------

  /** Placeholders that fall on a parameter of the array. */
  predicate Falls(ns: seq<nat>, n: nat) { exists k | k in ns :: 1 <= k <= n }

  lemma FallsInParts(a: seq<nat>, b: seq<nat>, n: nat)
    ensures Falls(a + b, n) <==> Falls(a, n) || Falls(b, n)
  {
    forall k ensures k in a + b <==> k in a || k in b {}
  }

  lemma {:induction false} FillsAlike(v: Json, params: seq<Datum>)
    requires Numbered(v)
    ensures Fill(v, params) == Fill(v, []) <==> !Falls(NumbersIn(v), |params|)
    decreases v, 1
  {
    match v
    case Scalar(_) =>
    case List(items) => FillsAlikeList(items, params);
    case Object(fields) =>
      if ParamBody(v).Some? { WrapperFillsAlike(v, params); } else { FillsAlikeFields(fields, params); }
  }

  lemma WrapperFillsAlike(v: Json, params: seq<Datum>)
    requires Numbered(v) && ParamBody(v).Some?
    ensures Fill(v, params) == Fill(v, []) <==> !Falls(NumbersIn(v), |params|)
  {
    var body, n := ParamBody(v).value, NumberOf(v).value;
    assert NumbersIn(v) == [n];
    if 1 <= n <= |params| {
      var put := Put(body, "number", List([Scalar(params[n - 1])]));
      assert n in NumbersIn(v);
      GetPut(body, "number", List([Scalar(params[n - 1])]), "number");
      assert put != body;
      GetPut(v.fields, "ParamRef", Object(put), "ParamRef");
      GetPut(v.fields, "ParamRef", Object(body), "ParamRef");
    }
  }

  lemma {:induction false} FillsAlikeList(vs: seq<Json>, params: seq<Datum>)
    requires JsonTree.AllNumbered(vs)
    ensures FillList(vs, params) == FillList(vs, []) <==> !Falls(NumbersInList(vs), |params|)
    decreases vs, 0
  {
    if vs != [] {
      FillsAlike(vs[0], params);
      FillsAlikeList(vs[1..], params);
      FallsInParts(NumbersIn(vs[0]), NumbersInList(vs[1..]), |params|);
      var a, b := FillList(vs, params), FillList(vs, []);
      assert a == b ==> a[0] == b[0] && a[1..] == b[1..];
      assert a[1..] == FillList(vs[1..], params) && b[1..] == FillList(vs[1..], []);
    }
  }

  lemma {:induction false} FillsAlikeFields(fs: seq<Field>, params: seq<Datum>)
    requires FieldsNumbered(fs)
    ensures FillFields(fs, params) == FillFields(fs, []) <==> !Falls(NumbersInFields(fs), |params|)
    decreases fs, 0
  {
    if fs != [] {
      FillsAlike(fs[0].value, params);
      FillsAlikeFields(fs[1..], params);
      FallsInParts(NumbersIn(fs[0].value), NumbersInFields(fs[1..]), |params|);
      var a, b := FillFields(fs, params), FillFields(fs, []);
      assert a == b ==> a[0] == b[0] && a[1..] == b[1..];
      assert a[1..] == FillFields(fs[1..], params) && b[1..] == FillFields(fs[1..], []);
    }
  }

  /**
   A table-mode join whose parameter list is empty is always accepted, and its ON goes in as it is.
   It still means what it meant alone exactly when none of its placeholders falls on a parameter
   of the statement.
   */
  lemma EmptyListIsUnchecked(st: State, j: Join, later: seq<Datum>)
    requires st.Numbered() && j.Numbered() && j.TableMode? && j.params == []
    ensures Step(st, j) == Ok(st.(from := JoinNode(j.left, st.from, j.rarg, j.on)))
    ensures Fill(j.on, st.params + later) == Fill(j.on, j.params)
            <==> !Falls(NumbersIn(j.on), |st.params + later|)
  {
    FillsAlike(j.on, st.params + later);
  }

  // --- as the plan compiler runs it --------------------------------------------------------------------

  class PlanCompiler {
    var paramIndex: nat
    var parameters: seq<Datum>
    var from: Json

    constructor (st: State)
      ensures View() == st
    {
      paramIndex, parameters, from := st.index, st.params, st.from;
    }

    function View(): State
      reads this
    {
      State(paramIndex, parameters, from)
    }

    method PushAll(ps: seq<Datum>)
      modifies this`parameters, this`paramIndex
      ensures parameters == old(parameters) + ps && paramIndex == |parameters|
    {
      var i := 0;
      while i < |ps|
        invariant i <= |ps| && parameters == old(parameters) + ps[..i]
      {
        parameters := parameters + [ps[i]];
        assert ps[..i + 1] == ps[..i] + [ps[i]];
        i := i + 1;
      }
      assert ps[..i] == ps;
      paramIndex := |parameters|;
    }

    /** Wrap what is there as the left side of the next join. */
    method CompileJoinDecision(j: Join) returns (r: Option<Error>)
      requires View().Numbered() && j.Numbered()
      modifies this
      ensures match Step(old(View()), j)
              case Err(e) => r == Some(e) && View() == old(View())
              case Ok(st) => r == None && View() == st
    {
      var offset := |parameters|;
      var rarg, on := j.rarg, j.on;
      if j.BatchValues? {
        rarg := RenumberParamRefsInAst(rarg, offset);
        on := RenumberParamRefsInAst(on, offset);
        PushAll(j.params);
      } else if j.params != [] {
        if MaxParamRefNumber(j.on) > |j.params| { return Some(ForeignParameter); }
        on := RenumberParamRefsInAst(on, offset);
        PushAll(j.params);
      }
      from := JoinNode(j.left, from, rarg, on);
      r := None;
    }
  }
}
