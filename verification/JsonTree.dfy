/**
 The AST as the JSON value it is: packages/adapter-pgsql/src/compiler.ts:489-544 walks it without
 knowing node kinds, looking only for objects with a `ParamRef` key.
 */
module JsonTree {
  import opened Common
  import opened Ast
  import opened Placeholders

  /** Scalars are the leaves; `undefined` is null. */
  datatype Json = Scalar(d: Datum) | List(items: seq<Json>) | Object(fields: seq<Field>)

  datatype Field = Field(key: string, value: Json)

  function Get(fs: seq<Field>, key: string): Option<Json> {
    if fs == [] then None else if fs[0].key == key then Some(fs[0].value) else Get(fs[1..], key)
  }

  /** `{ ...fields, key: value }` for a key that is present. */
  function Put(fs: seq<Field>, key: string, value: Json): (r: seq<Field>)
    ensures |r| == |fs|
  {
    if fs == [] then []
    else if fs[0].key == key then [Field(key, value)] + fs[1..]
    else [fs[0]] + Put(fs[1..], key, value)
  }

  lemma {:induction false} GetPut(fs: seq<Field>, key: string, value: Json, other: string)
    requires Get(fs, key).Some?
    ensures Get(Put(fs, key, value), other) == if other == key then Some(value) else Get(fs, other)
  {
    if fs[0].key != key { GetPut(fs[1..], key, value, other); }
  }

  function ParamBody(v: Json): Option<seq<Field>> {
    if !v.Object? then None
    else
      match Get(v.fields, "ParamRef")
      case Some(Object(body)) => Some(body)
      case _ => None
  }

  /** The placeholder number of a node that wraps a ParamRef. */
  function NumberOf(v: Json): Option<nat> {
    match ParamBody(v)
    case None => None
    case Some(body) =>
      match Get(body, "number")
      case Some(Scalar(NumVal(n))) => if n >= 0 then Some(n) else None
      case _ => None
  }

  function Wrapper(body: seq<Field>): Json { Object([Field("ParamRef", Object(body))]) }

  /** Every ParamRef is an object that carries a number. */
  predicate Numbered(v: Json)
    decreases v, 1
  {
    match v
    case Scalar(_) => true
    case List(items) => AllNumbered(items)
    case Object(fields) =>
      if ParamBody(v).Some? then NumberOf(v).Some?
      else (Get(fields, "ParamRef").Some? ==> !Get(fields, "ParamRef").value.List?) && FieldsNumbered(fields)
  }

  predicate AllNumbered(vs: seq<Json>)
    decreases vs, 0
  {
    vs != [] ==> Numbered(vs[0]) && AllNumbered(vs[1..])
  }

  predicate FieldsNumbered(fs: seq<Field>)
    decreases fs, 0
  {
    fs != [] ==> Numbered(fs[0].value) && FieldsNumbered(fs[1..])
  }

  lemma ShiftedNumber(body: seq<Field>, n: nat)
    requires Get(body, "number").Some?
    ensures NumberOf(Wrapper(Put(body, "number", Scalar(NumVal(n))))) == Some(n)
  {
    GetPut(body, "number", Scalar(NumVal(n)), "number");
  }

  // --- the two walks -------------------------------------------------------------------------------

  function RenumberNode(v: Json, offset: nat): (r: Json)
    requires Numbered(v)
    ensures Numbered(r) && r.Object? == v.Object? && r.List? == v.List?
    decreases v, 1
  {
    match v
    case Scalar(_) => v
    case List(items) => List(RenumberList(items, offset))
    case Object(fields) =>
      if ParamBody(v).Some? then
        ShiftedNumber(ParamBody(v).value, NumberOf(v).value + offset);
        Wrapper(Put(ParamBody(v).value, "number", Scalar(NumVal(NumberOf(v).value + offset))))
      else
        Object(RenumberFields(fields, offset))
  }

  function RenumberList(vs: seq<Json>, offset: nat): (r: seq<Json>)
    requires AllNumbered(vs)
    ensures |r| == |vs| && AllNumbered(r)
    decreases vs, 0
  {
    if vs == [] then [] else [RenumberNode(vs[0], offset)] + RenumberList(vs[1..], offset)
  }

  function RenumberFields(fs: seq<Field>, offset: nat): (r: seq<Field>)
    requires FieldsNumbered(fs)
    ensures |r| == |fs| && FieldsNumbered(r)
    ensures forall key :: Get(r, key).Some? == Get(fs, key).Some?
    ensures forall key | Get(fs, key).Some? ::
      Get(r, key).value.Object? == Get(fs, key).value.Object? && Get(r, key).value.List? == Get(fs, key).value.List?
    decreases fs, 0
  {
    if fs == [] then [] else [Field(fs[0].key, RenumberNode(fs[0].value, offset))] + RenumberFields(fs[1..], offset)
  }

  /** `renumberParamRefsInAst`: a zero offset returns the tree itself. */
  function RenumberParamRefsInAst(v: Json, offset: nat): (r: Json)
    requires Numbered(v)
    ensures Numbered(r)
  {
    if offset == 0 then v else RenumberNode(v, offset)
  }

  function Max(a: nat, b: nat): nat { if a >= b then a else b }

  function MaxParamRefNumber(v: Json): nat
    requires Numbered(v)
    decreases v, 1
  {
    match v
    case Scalar(_) => 0
    case List(items) => MaxOfList(items)
    case Object(fields) => if ParamBody(v).Some? then NumberOf(v).value else MaxOfFields(fields)
  }

  function MaxOfList(vs: seq<Json>): nat
    requires AllNumbered(vs)
    decreases vs, 0
  {
    if vs == [] then 0 else Max(MaxParamRefNumber(vs[0]), MaxOfList(vs[1..]))
  }

  function MaxOfFields(fs: seq<Field>): nat
    requires FieldsNumbered(fs)
    decreases fs, 0
  {
    if fs == [] then 0 else Max(MaxParamRefNumber(fs[0].value), MaxOfFields(fs[1..]))
  }

  // --- laws ------------------------------------------------------------------------------------------

  /** The placeholder numbers in a tree. */
  function NumbersIn(v: Json): seq<nat>
    requires Numbered(v)
    decreases v, 1
  {
    match v
    case Scalar(_) => []
    case List(items) => NumbersInList(items)
    case Object(fields) => if ParamBody(v).Some? then [NumberOf(v).value] else NumbersInFields(fields)
  }

  function NumbersInList(vs: seq<Json>): seq<nat>
    requires AllNumbered(vs)
    decreases vs, 0
  {
    if vs == [] then [] else NumbersIn(vs[0]) + NumbersInList(vs[1..])
  }

  function NumbersInFields(fs: seq<Field>): seq<nat>
    requires FieldsNumbered(fs)
    decreases fs, 0
  {
    if fs == [] then [] else NumbersIn(fs[0].value) + NumbersInFields(fs[1..])
  }

  predicate Largest(m: nat, ns: seq<nat>) { (forall n | n in ns :: n <= m) && if ns == [] then m == 0 else m in ns }

  lemma LargestOfTwo(a: nat, x: seq<nat>, b: nat, y: seq<nat>)
    requires Largest(a, x) && Largest(b, y)
    ensures Largest(Max(a, b), x + y)
  {
  }

  lemma {:induction false} MaxIsLargest(v: Json)
    requires Numbered(v)
    ensures Largest(MaxParamRefNumber(v), NumbersIn(v))
    decreases v, 1
  {
    match v
    case Scalar(_) =>
    case List(items) => MaxOfListIsLargest(items);
    case Object(fields) => if ParamBody(v).None? { MaxOfFieldsIsLargest(fields); }
  }

  lemma {:induction false} MaxOfListIsLargest(vs: seq<Json>)
    requires AllNumbered(vs)
    ensures Largest(MaxOfList(vs), NumbersInList(vs))
    decreases vs, 0
  {
    if vs != [] {
      MaxIsLargest(vs[0]);
      MaxOfListIsLargest(vs[1..]);
      LargestOfTwo(MaxParamRefNumber(vs[0]), NumbersIn(vs[0]), MaxOfList(vs[1..]), NumbersInList(vs[1..]));
    }
  }

  lemma {:induction false} MaxOfFieldsIsLargest(fs: seq<Field>)
    requires FieldsNumbered(fs)
    ensures Largest(MaxOfFields(fs), NumbersInFields(fs))
    decreases fs, 0
  {
    if fs != [] {
      MaxIsLargest(fs[0].value);
      MaxOfFieldsIsLargest(fs[1..]);
      LargestOfTwo(MaxParamRefNumber(fs[0].value), NumbersIn(fs[0].value), MaxOfFields(fs[1..]),
          NumbersInFields(fs[1..]));
    }
  }

  lemma PlusJoins(a: seq<nat>, b: seq<nat>, k: nat)
    ensures Plus(a + b, k) == Plus(a, k) + Plus(b, k)
  {
  }

  lemma {:induction false} NumbersShift(v: Json, k: nat)
    requires Numbered(v)
    ensures NumbersIn(RenumberNode(v, k)) == Plus(NumbersIn(v), k)
    decreases v, 1
  {
    match v
    case Scalar(_) =>
    case List(items) => NumbersShiftList(items, k);
    case Object(fields) =>
      if ParamBody(v).Some? {
        ShiftedNumber(ParamBody(v).value, NumberOf(v).value + k);
        assert Plus([NumberOf(v).value], k) == [NumberOf(v).value + k] + Plus([], k);
      } else {
        NumbersShiftFields(fields, k);
      }
  }

  lemma {:induction false} NumbersShiftList(vs: seq<Json>, k: nat)
    requires AllNumbered(vs)
    ensures NumbersInList(RenumberList(vs, k)) == Plus(NumbersInList(vs), k)
    decreases vs, 0
  {
    if vs != [] {
      NumbersShift(vs[0], k);
      NumbersShiftList(vs[1..], k);
      PlusJoins(NumbersIn(vs[0]), NumbersInList(vs[1..]), k);
      assert RenumberList(vs, k)[1..] == RenumberList(vs[1..], k);
    }
  }

  lemma {:induction false} NumbersShiftFields(fs: seq<Field>, k: nat)
    requires FieldsNumbered(fs)
    ensures NumbersInFields(RenumberFields(fs, k)) == Plus(NumbersInFields(fs), k)
    decreases fs, 0
  {
    if fs != [] {
      NumbersShift(fs[0].value, k);
      NumbersShiftFields(fs[1..], k);
      PlusJoins(NumbersIn(fs[0].value), NumbersInFields(fs[1..]), k);
      assert RenumberFields(fs, k)[1..] == RenumberFields(fs[1..], k);
    }
  }

  lemma LargestShifts(m: nat, ns: seq<nat>, k: nat)
    requires Largest(m, ns) && ns != []
    ensures Largest(m + k, Plus(ns, k))
  {
    var i :| 0 <= i < |ns| && ns[i] == m;
    assert Plus(ns, k)[i] == m + k;
    forall j | 0 <= j < |ns| ensures Plus(ns, k)[j] <= m + k {
      assert ns[j] in ns;
    }
  }

  lemma LargestIsUnique(a: nat, b: nat, ns: seq<nat>)
    requires Largest(a, ns) && Largest(b, ns)
    ensures a == b
  {
  }

  /** The largest number shifts exactly with the tree, and stays zero where there is none. */
  lemma MaxShifts(v: Json, k: nat)
    requires Numbered(v)
    ensures MaxParamRefNumber(RenumberParamRefsInAst(v, k))
            == if NumbersIn(v) == [] then 0 else MaxParamRefNumber(v) + k
  {
    var r := RenumberParamRefsInAst(v, k);
    MaxIsLargest(v);
    MaxIsLargest(r);
    if k > 0 {
      NumbersShift(v, k);
      if NumbersIn(v) != [] {
        LargestShifts(MaxParamRefNumber(v), NumbersIn(v), k);
        LargestIsUnique(MaxParamRefNumber(r), MaxParamRefNumber(v) + k, NumbersIn(r));
      }
    }
  }

  lemma {:induction false} PutTwice(fs: seq<Field>, key: string, a: Json, b: Json)
    ensures Put(Put(fs, key, a), key, b) == Put(fs, key, b)
  {
    if fs != [] && fs[0].key != key {
      PutTwice(fs[1..], key, a, b);
      assert Put(fs, key, a)[1..] == Put(fs[1..], key, a);
    }
  }

  lemma {:induction false} RenumberNodeTwice(v: Json, a: nat, b: nat)
    requires Numbered(v)
    ensures RenumberNode(RenumberNode(v, a), b) == RenumberNode(v, a + b)
    decreases v, 1
  {
    match v
    case Scalar(_) =>
    case List(items) => RenumberListTwice(items, a, b);
    case Object(fields) =>
      if ParamBody(v).Some? {
        var body, n := ParamBody(v).value, NumberOf(v).value;
        ShiftedNumber(body, n + a);
        PutTwice(body, "number", Scalar(NumVal(n + a)), Scalar(NumVal(n + a + b)));
      } else {
        RenumberFieldsTwice(fields, a, b);
      }
  }

  lemma {:induction false} RenumberListTwice(vs: seq<Json>, a: nat, b: nat)
    requires AllNumbered(vs)
    ensures RenumberList(RenumberList(vs, a), b) == RenumberList(vs, a + b)
    decreases vs, 0
  {
    if vs != [] {
      RenumberNodeTwice(vs[0], a, b);
      RenumberListTwice(vs[1..], a, b);
      assert RenumberList(vs, a)[1..] == RenumberList(vs[1..], a);
    }
  }

  lemma {:induction false} RenumberFieldsTwice(fs: seq<Field>, a: nat, b: nat)
    requires FieldsNumbered(fs)
    ensures RenumberFields(RenumberFields(fs, a), b) == RenumberFields(fs, a + b)
    decreases fs, 0
  {
    if fs != [] {
      RenumberNodeTwice(fs[0].value, a, b);
      RenumberFieldsTwice(fs[1..], a, b);
      assert RenumberFields(fs, a)[1..] == RenumberFields(fs[1..], a);
    }
  }

  /** Renumbering is additive in the offset. */
  lemma RenumberTwice(v: Json, a: nat, b: nat)
    requires Numbered(v)
    ensures RenumberParamRefsInAst(RenumberParamRefsInAst(v, a), b) == RenumberParamRefsInAst(v, a + b)
  {
    RenumberNodeTwice(v, a, b);
  }

  // --- what the walk must not drop -------------------------------------------------------------------

  /** Objects that wrap a ParamRef have no other key. */
  predicate SingleKeys(v: Json)
    decreases v, 1
  {
    match v
    case Scalar(_) => true
    case List(items) => AllSingleKeys(items)
    case Object(fields) => if ParamBody(v).Some? then |fields| == 1 else FieldsSingleKeys(fields)
  }

  predicate AllSingleKeys(vs: seq<Json>)
    decreases vs, 0
  {
    vs != [] ==> SingleKeys(vs[0]) && AllSingleKeys(vs[1..])
  }

  predicate FieldsSingleKeys(fs: seq<Field>)
    decreases fs, 0
  {
    fs != [] ==> SingleKeys(fs[0].value) && FieldsSingleKeys(fs[1..])
  }

  /** The tree with the value of each placeholder in its place; placeholders outside the array stay. */
  function Fill(v: Json, params: seq<Datum>): Json
    requires Numbered(v)
    decreases v, 1
  {
    match v
    case Scalar(_) => v
    case List(items) => List(FillList(items, params))
    case Object(fields) =>
      if ParamBody(v).Some? then
        var body, n := ParamBody(v).value, NumberOf(v).value;
        Object(Put(fields, "ParamRef",
                   Object(if 1 <= n <= |params| then Put(body, "number", List([Scalar(params[n - 1])])) else body)))
      else Object(FillFields(fields, params))
  }

  function FillList(vs: seq<Json>, params: seq<Datum>): seq<Json>
    requires AllNumbered(vs)
    decreases vs, 0
  {
    if vs == [] then [] else [Fill(vs[0], params)] + FillList(vs[1..], params)
  }

  function FillFields(fs: seq<Field>, params: seq<Datum>): seq<Field>
    requires FieldsNumbered(fs)
    decreases fs, 0
  {
    if fs == [] then [] else [Field(fs[0].key, Fill(fs[0].value, params))] + FillFields(fs[1..], params)
  }

  /** Every placeholder has a value among n. */
  predicate Closed(ns: seq<nat>, n: nat) { forall k | k in ns :: 1 <= k <= n }

  lemma ClosedParts(a: seq<nat>, b: seq<nat>, n: nat)
    ensures Closed(a + b, n) <==> Closed(a, n) && Closed(b, n)
  {
    forall k ensures k in a + b <==> k in a || k in b {}
  }

  lemma LonelyWrapper(v: Json)
    requires ParamBody(v).Some? && |v.fields| == 1
    ensures v == Wrapper(ParamBody(v).value)
  {
    assert v.fields[1..] == [];
    assert Get(v.fields[1..], "ParamRef") == None;
    assert Get(v.fields, "ParamRef").Some?;
    assert v.fields[0].key == "ParamRef";
    assert v.fields == [v.fields[0]];
  }

  lemma FilledWrapper(body: seq<Field>, n: nat, params: seq<Datum>)
    requires NumberOf(Wrapper(body)) == Some(n) && 1 <= n <= |params|
    ensures Fill(Wrapper(body), params) == Wrapper(Put(body, "number", List([Scalar(params[n - 1])])))
  {
    assert ParamBody(Wrapper(body)) == Some(body);
  }

  /** A placeholder shifted past other parameters still has its own value. */
  lemma WrapperFills(v: Json, before: seq<Datum>, own: seq<Datum>, after: seq<Datum>)
    requires Numbered(v) && ParamBody(v).Some? && |v.fields| == 1 && 1 <= NumberOf(v).value <= |own|
    ensures Fill(RenumberNode(v, |before|), before + own + after) == Fill(v, own)
  {
    var body, n := ParamBody(v).value, NumberOf(v).value;
    var all := before + own + after;
    var shifted := Put(body, "number", Scalar(NumVal(n + |before|)));
    LonelyWrapper(v);
    ShiftedNumber(body, n + |before|);
    PutTwice(body, "number", Scalar(NumVal(n + |before|)), List([Scalar(own[n - 1])]));
    assert all[n + |before| - 1] == own[n - 1];
    FilledWrapper(body, n, own);
    FilledWrapper(shifted, n + |before|, all);
  }

  /** So a whole fragment keeps its values wherever it is spliced. */
  lemma {:induction false} ShiftedFills(v: Json, before: seq<Datum>, own: seq<Datum>, after: seq<Datum>)
    requires Numbered(v) && SingleKeys(v) && Closed(NumbersIn(v), |own|)
    ensures Fill(RenumberNode(v, |before|), before + own + after) == Fill(v, own)
    decreases v, 1
  {
    match v
    case Scalar(_) =>
    case List(items) => ShiftedFillsList(items, before, own, after);
    case Object(fields) =>
      if ParamBody(v).Some? {
        assert NumberOf(v).value in NumbersIn(v);
        WrapperFills(v, before, own, after);
      } else {
        ShiftedFillsFields(fields, before, own, after);
      }
  }

  lemma {:induction false} ShiftedFillsList(vs: seq<Json>, before: seq<Datum>, own: seq<Datum>, after: seq<Datum>)
    requires AllNumbered(vs) && AllSingleKeys(vs) && Closed(NumbersInList(vs), |own|)
    ensures FillList(RenumberList(vs, |before|), before + own + after) == FillList(vs, own)
    decreases vs, 0
  {
    if vs != [] {
      ClosedParts(NumbersIn(vs[0]), NumbersInList(vs[1..]), |own|);
      ShiftedFills(vs[0], before, own, after);
      ShiftedFillsList(vs[1..], before, own, after);
      assert RenumberList(vs, |before|)[1..] == RenumberList(vs[1..], |before|);
    }
  }

  lemma {:induction false} ShiftedFillsFields(fs: seq<Field>, before: seq<Datum>, own: seq<Datum>, after: seq<Datum>)
    requires FieldsNumbered(fs) && FieldsSingleKeys(fs) && Closed(NumbersInFields(fs), |own|)
    ensures FillFields(RenumberFields(fs, |before|), before + own + after) == FillFields(fs, own)
    decreases fs, 0
  {
    if fs != [] {
      ClosedParts(NumbersIn(fs[0].value), NumbersInFields(fs[1..]), |own|);
      ShiftedFills(fs[0].value, before, own, after);
      ShiftedFillsFields(fs[1..], before, own, after);
      assert RenumberFields(fs, |before|)[1..] == RenumberFields(fs[1..], |before|);
    }
  }

  /** Parameters appended later do not disturb a fragment whose placeholders all have values. */
  lemma {:induction false} MoreParamsFill(v: Json, params: seq<Datum>, more: seq<Datum>)
    requires Numbered(v) && Closed(NumbersIn(v), |params|)
    ensures Fill(v, params + more) == Fill(v, params)
    decreases v, 1
  {
    match v
    case Scalar(_) =>
    case List(items) => MoreParamsFillList(items, params, more);
    case Object(fields) =>
      if ParamBody(v).Some? {
        assert NumberOf(v).value in NumbersIn(v);
      } else {
        MoreParamsFillFields(fields, params, more);
      }
  }

  lemma {:induction false} MoreParamsFillList(vs: seq<Json>, params: seq<Datum>, more: seq<Datum>)
    requires AllNumbered(vs) && Closed(NumbersInList(vs), |params|)
    ensures FillList(vs, params + more) == FillList(vs, params)
    decreases vs, 0
  {
    if vs != [] {
      ClosedParts(NumbersIn(vs[0]), NumbersInList(vs[1..]), |params|);
      MoreParamsFill(vs[0], params, more);
      MoreParamsFillList(vs[1..], params, more);
    }
  }

  lemma {:induction false} MoreParamsFillFields(fs: seq<Field>, params: seq<Datum>, more: seq<Datum>)
    requires FieldsNumbered(fs) && Closed(NumbersInFields(fs), |params|)
    ensures FillFields(fs, params + more) == FillFields(fs, params)
    decreases fs, 0
  {
    if fs != [] {
      ClosedParts(NumbersIn(fs[0].value), NumbersInFields(fs[1..]), |params|);
      MoreParamsFill(fs[0].value, params, more);
      MoreParamsFillFields(fs[1..], params, more);
    }
  }

  /** Siblings of a ParamRef are dropped by a shift, so a kept fragment has none. */
  lemma {:induction false} KeptOnlyWithSingleKeys(v: Json, k: nat, a: seq<Datum>, b: seq<Datum>)
    requires Numbered(v) && Fill(RenumberNode(v, k), a) == Fill(v, b)
    ensures SingleKeys(v)
    decreases v, 1
  {
    match v
    case Scalar(_) =>
    case List(items) => KeptListOnlyWithSingleKeys(items, k, a, b);
    case Object(fields) =>
      if ParamBody(v).Some? {
        ShiftedNumber(ParamBody(v).value, NumberOf(v).value + k);
        assert |Fill(RenumberNode(v, k), a).fields| == 1;
      } else {
        KeptFieldsOnlyWithSingleKeys(fields, k, a, b);
      }
  }

  lemma {:induction false} KeptListOnlyWithSingleKeys(vs: seq<Json>, k: nat, a: seq<Datum>, b: seq<Datum>)
    requires AllNumbered(vs) && FillList(RenumberList(vs, k), a) == FillList(vs, b)
    ensures AllSingleKeys(vs)
    decreases vs, 0
  {
    if vs != [] {
      var r := RenumberList(vs, k);
      assert r[1..] == RenumberList(vs[1..], k);
      assert FillList(r, a)[0] == FillList(vs, b)[0];
      assert FillList(r, a)[1..] == FillList(r[1..], a) && FillList(vs, b)[1..] == FillList(vs[1..], b);
      KeptOnlyWithSingleKeys(vs[0], k, a, b);
      KeptListOnlyWithSingleKeys(vs[1..], k, a, b);
    }
  }

  lemma {:induction false} KeptFieldsOnlyWithSingleKeys(fs: seq<Field>, k: nat, a: seq<Datum>, b: seq<Datum>)
    requires FieldsNumbered(fs) && FillFields(RenumberFields(fs, k), a) == FillFields(fs, b)
    ensures FieldsSingleKeys(fs)
    decreases fs, 0
  {
    if fs != [] {
      var r := RenumberFields(fs, k);
      assert r[1..] == RenumberFields(fs[1..], k);
      assert FillFields(r, a)[0] == FillFields(fs, b)[0];
      assert FillFields(r, a)[1..] == FillFields(r[1..], a) && FillFields(fs, b)[1..] == FillFields(fs[1..], b);
      KeptOnlyWithSingleKeys(fs[0].value, k, a, b);
      KeptFieldsOnlyWithSingleKeys(fs[1..], k, a, b);
    }
  }

  /**
   A fragment spliced after other parameters keeps the value of each of its placeholders exactly
   when nothing was before it or no ParamRef wrapper has a second key.
   */
  lemma FragmentKeepsItsValues(v: Json, before: seq<Datum>, own: seq<Datum>, after: seq<Datum>)
    requires Numbered(v) && Closed(NumbersIn(v), |own|)
    ensures Fill(RenumberParamRefsInAst(v, |before|), before + own + after) == Fill(v, own)
            <==> before == [] || SingleKeys(v)
    ensures Closed(NumbersIn(RenumberParamRefsInAst(v, |before|)), |before| + |own|)
  {
    if before == [] {
      assert before + own + after == own + after;
      MoreParamsFill(v, own, after);
    } else {
      if SingleKeys(v) {
        ShiftedFills(v, before, own, after);
      } else if Fill(RenumberNode(v, |before|), before + own + after) == Fill(v, own) {
        KeptOnlyWithSingleKeys(v, |before|, before + own + after, own);
      }
      NumbersShift(v, |before|);
      forall i | 0 <= i < |NumbersIn(v)| ensures 1 <= Plus(NumbersIn(v), |before|)[i] <= |before| + |own| {
        assert NumbersIn(v)[i] in NumbersIn(v);
      }
    }
  }
}
